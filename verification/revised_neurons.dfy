/** The later revision of the neuron (Neuron.cpp).  It adds an id given at
    construction and a pluggable activation function that may be unset, and
    a synapse may point at no neuron at all.  Outputs, weights and lookups
    then skip the links without a target, and the outputs and weights stay
    as they are while no activation is set.

    As for the first revision, neurons are values in a grid of groups and a
    synapse names its target by position. */
module RevisedNeurons {
  import opened Wrappers
  import opened Constants
  import opened Activation
  import opened Neurons

  /** A synapse whose target may be null. */
  datatype Link = Link(target: Option<Ref>, weight: real)

  datatype Cell = Cell(
    id: int,
    synapses: seq<Link>,
    category: string,
    output: real,
    error: real,
    activation: Option<real -> real>)

  type Grid = seq<seq<Cell>>

  /** Every non-null target names a neuron of the grid. */
  predicate Live(g: Grid, links: seq<Link>)
  {
    forall k :: 0 <= k < |links| && links[k].target.Some? ==> ValidRef(g, links[k].target.value)
  }

  function OutputAt(g: Grid, r: Ref): real
    requires ValidRef(g, r)
  {
    g[r.group][r.index].output
  }

  /** A neuron as the constructor makes it: the given id and activation, no
      synapses, and the default output and error. */
  function Created(id: int, activation: Option<real -> real>): (c: Cell)
    ensures c.id == id && c.activation == activation && c.synapses == [] && c.category == ""
    ensures c.output == OutputNeuronDefault && c.error == ErrorDefault
  {
    Cell(id, [], "", OutputNeuronDefault, ErrorDefault, activation)
  }

  /** Sum of target output times weight over the links that have a target. */
  function LiveSum(g: Grid, links: seq<Link>): real
    requires Live(g, links)
    decreases |links|
  {
    if links == [] then 0.0
    else
      var last := links[|links| - 1];
      LiveSum(g, links[..|links| - 1]) + (if last.target.Some? then OutputAt(g, last.target.value) * last.weight else 0.0)
  }

  /** The links that have a target, in order: every link of the result has
      a target and comes from the list; NonNullKept and NonNullKeepsOrder
      state that every link with a target is kept, in order. */
  function NonNull(links: seq<Link>): (r: seq<Link>)
    ensures |r| <= |links|
    ensures forall k :: 0 <= k < |r| ==> r[k].target.Some?
    ensures forall k :: 0 <= k < |r| ==> r[k] in links
    decreases |links|
  {
    if links == [] then []
    else
      var init := links[..|links| - 1];
      var last := links[|links| - 1];
      var rest := NonNull(init);
      assert forall k :: 0 <= k < |rest| ==> rest[k] in init;
      if last.target.Some? then rest + [last] else rest
  }

  /** Filtering keeps the relative order: it distributes over concatenation,
      and a single link is kept exactly when it has a target. */
  lemma {:induction false} NonNullKeepsOrder(x: seq<Link>, y: seq<Link>, l: Link)
    ensures NonNull([l]) == (if l.target.Some? then [l] else [])
    ensures NonNull(x + y) == NonNull(x) + NonNull(y)
    decreases |y|
  {
    assert [l][..0] == [];
    if y == [] {
      assert x + y == x;
    } else {
      var y' := y[..|y| - 1];
      var last := y[|y| - 1];
      assert (x + y)[..|x + y| - 1] == x + y';
      assert (x + y)[|x + y| - 1] == last;
      NonNullKeepsOrder(x, y', l);
      if last.target.Some? {
        assert NonNull(x) + (NonNull(y') + [last]) == NonNull(x) + NonNull(y') + [last];
      }
    }
  }

  /** Every link with a target survives the filter. */
  lemma NonNullKept(links: seq<Link>, k: nat)
    requires k < |links| && links[k].target.Some?
    ensures links[k] in NonNull(links)
  {
    var l := links[k];
    assert links == links[..k] + ([l] + links[k + 1..]);
    NonNullKeepsOrder(links[..k], [l] + links[k + 1..], l);
    NonNullKeepsOrder([l], links[k + 1..], l);
    assert NonNull(links) == NonNull(links[..k]) + ([l] + NonNull(links[k + 1..]));
  }

  /** Dropping the links without a target first gives the same sum: a null
      link contributes nothing. */
  lemma {:induction false} NullLinksContributeNothing(g: Grid, links: seq<Link>)
    requires Live(g, links)
    ensures Live(g, NonNull(links))
    ensures LiveSum(g, links) == LiveSum(g, NonNull(links))
    decreases |links|
  {
    if links != [] {
      var init := links[..|links| - 1];
      var last := links[|links| - 1];
      NullLinksContributeNothing(g, init);
      var rest := NonNull(init);
      if last.target.Some? {
        var r := rest + [last];
        assert r[..|r| - 1] == rest;
      }
    }
  }

  /** The output after computeOutputValue: the activation of the sum over
      the links with a target, or the old output when no activation is set;
      nothing else changes. */
  function Computed(g: Grid, n: Cell): (r: Cell)
    requires Live(g, n.synapses)
    ensures r == n.(output := r.output)
    ensures n.activation.None? ==> r == n
  {
    if n.activation.None? then n
    else n.(output := n.activation.value(LiveSum(g, n.synapses)))
  }

  method ComputeOutputValue(g: Grid, n: Cell) returns (r: Cell)
    requires Live(g, n.synapses)
    ensures r == Computed(g, n)
    ensures n.activation.Some? ==> r.output == n.activation.value(LiveSum(g, n.synapses))
  {
    var acc := 0.0;
    var i := 0;
    while i < |n.synapses|
      invariant 0 <= i <= |n.synapses|
      invariant acc == LiveSum(g, n.synapses[..i])
    {
      var link := n.synapses[i];
      assert n.synapses[..i + 1][..i] == n.synapses[..i];
      if link.target.Some? {
        acc := acc + g[link.target.value.group][link.target.value.index].output * link.weight;
      }
      i := i + 1;
    }
    assert n.synapses[..i] == n.synapses;
    r := n;
    if n.activation.Some? {
      r := n.(output := n.activation.value(acc));
    }
  }

  /** The change computeWeights makes to a link toward t. */
  function Nudge(g: Grid, n: Cell, t: Ref, act: real -> real): real
    requires ValidRef(g, t)
  {
    LearningRateDefault * n.error * OutputAt(g, t) * Differential(act, n.output)
  }

  /** The neuron after computeWeights: with an activation set, every link
      with a target moves by its nudge; links without a target, and all
      links when no activation is set, keep their weights.  Targets and the
      other fields never change. */
  function Adjusted(g: Grid, n: Cell): (r: Cell)
    requires Live(g, n.synapses)
    ensures r == n.(synapses := r.synapses)
    ensures |r.synapses| == |n.synapses|
    ensures forall k :: 0 <= k < |n.synapses| ==> r.synapses[k].target == n.synapses[k].target
    ensures forall k :: 0 <= k < |n.synapses| && (n.activation.None? || n.synapses[k].target.None?) ==>
      r.synapses[k] == n.synapses[k]
    ensures forall k :: 0 <= k < |n.synapses| && n.activation.Some? && n.synapses[k].target.Some? ==>
      r.synapses[k].weight == n.synapses[k].weight + Nudge(g, n, n.synapses[k].target.value, n.activation.value)
  {
    if n.activation.None? then n
    else
      var act := n.activation.value;
      n.(synapses := seq(|n.synapses|, k requires 0 <= k < |n.synapses| =>
        var s := n.synapses[k];
        if s.target.Some? then s.(weight := s.weight + Nudge(g, n, s.target.value, act)) else s))
  }

  method ComputeWeights(g: Grid, n: Cell) returns (r: Cell)
    requires Live(g, n.synapses)
    ensures r == Adjusted(g, n)
  {
    r := n;
    var i := 0;
    while i < |n.synapses|
      invariant 0 <= i <= |n.synapses|
      invariant r == n.(synapses := r.synapses) && |r.synapses| == |n.synapses|
      invariant forall k :: i <= k < |n.synapses| ==> r.synapses[k] == n.synapses[k]
      invariant forall k :: 0 <= k < i ==> r.synapses[k] == Adjusted(g, n).synapses[k]
    {
      var s := n.synapses[i];
      if s.target.Some? && n.activation.Some? {
        var moved := s.(weight := s.weight + Nudge(g, n, s.target.value, n.activation.value));
        r := r.(synapses := r.synapses[i := moved]);
      }
      i := i + 1;
    }
    assert r.synapses == Adjusted(g, n).synapses;
  }

  /** A neuron with no error keeps all its weights. */
  lemma ZeroErrorKeepsLinks(g: Grid, n: Cell)
    requires Live(g, n.synapses) && n.error == 0.0
    ensures Adjusted(g, n) == n
  {
    var r := Adjusted(g, n);
    forall k | 0 <= k < |n.synapses|
      ensures r.synapses[k] == n.synapses[k]
    {
      if n.activation.Some? && n.synapses[k].target.Some? {
        assert Nudge(g, n, n.synapses[k].target.value, n.activation.value) == 0.0;
      }
    }
    assert r.synapses == n.synapses;
  }

  /** getWeight: none for a null argument; otherwise the weight of the first
      link toward t, or none when no link points at t. */
  function GetWeight(n: Cell, t: Option<Ref>): (r: Option<real>)
    ensures t.None? ==> r.None?
    ensures t.Some? ==> (r.Some? <==> exists k :: 0 <= k < |n.synapses| && n.synapses[k].target == t)
    ensures r.Some? ==> exists k :: 0 <= k < |n.synapses| && n.synapses[k].target == t && n.synapses[k].weight == r.value &&
                                   forall j :: 0 <= j < k ==> n.synapses[j].target != t
  {
    if t.None? then None else FirstWeight(n.synapses, t, 0)
  }

  /** The weight of the first link from position i on whose target is t. */
  function FirstWeight(links: seq<Link>, t: Option<Ref>, i: nat): (r: Option<real>)
    requires i <= |links|
    requires forall j :: 0 <= j < i ==> links[j].target != t
    ensures r.Some? <==> exists k :: 0 <= k < |links| && links[k].target == t
    ensures r.Some? ==> exists k :: 0 <= k < |links| && links[k].target == t && links[k].weight == r.value &&
                                   forall j :: 0 <= j < k ==> links[j].target != t
    decreases |links| - i
  {
    if i == |links| then None
    else if links[i].target == t then Some(links[i].weight)
    else FirstWeight(links, t, i + 1)
  }

  /** setActivationFunction: replaces the activation, possibly with none. */
  function SetActivationFunction(n: Cell, f: Option<real -> real>): (r: Cell)
    ensures r.activation == f
    ensures r == n.(activation := r.activation)
  {
    n.(activation := f)
  }

  /** getId: the id stored in the neuron (a signed 64-bit value in the
      source, an unbounded integer here). */
  function GetId(n: Cell): (r: int)
    ensures r == n.id
  {
    n.id
  }

  /** The id given at construction survives every operation on the neuron:
      each of them keeps the id of any neuron, so any sequence of them does. */
  lemma IdIsPermanent(g: Grid, n: Cell, id: int, f: Option<real -> real>, f': Option<real -> real>)
    requires Live(g, n.synapses)
    ensures GetId(Created(id, f)) == id
    ensures GetId(Computed(g, n)) == GetId(n)
    ensures GetId(Adjusted(g, n)) == GetId(n)
    ensures GetId(SetActivationFunction(n, f')) == GetId(n)
  {
  }
}
