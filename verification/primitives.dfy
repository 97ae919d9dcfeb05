/** A layer of neurons (network::primitives::Primitive in Primitive.hpp) and
    its bulk operations.

    A layer is one group of the neuron arena.  Operations that only touch
    the layer's own neurons take and return the group; operations that read
    the neurons of another layer (connect, calculate, the back-propagated
    error, the weight update) take the arena and the index of the group they
    change, and return the arena with that group rewritten.  The loops visit
    the neurons in order and rewrite each in place, as the source does. */
module Primitives {
  import opened Wrappers
  import opened Constants
  import opened Activation
  import opened Neurons

  type Primitive = seq<Neuron>

  /** Values returned by successive calls of the random weight source. */
  type Draws = f: nat -> real | forall k :: WeightMin <= f(k) <= WeightMax ghost witness (k: nat) => 0.0

  /** Constructing a layer of a given size: that many fresh neurons. */
  method Fresh(size: nat) returns (p: Primitive)
    ensures |p| == size
    ensures forall i :: 0 <= i < size ==> p[i] == Neurons.New()
  {
    p := [];
    var i := 0;
    while i < size
      invariant 0 <= i <= size && |p| == i
      invariant forall j :: 0 <= j < i ==> p[j] == Neurons.New()
    {
      p := p + [Neurons.New()];
      i := i + 1;
    }
  }

  // ----- Shape of an arena -----------------------------------------------

  /** Targets of a list of synapses, in order. */
  function Targets(syns: seq<Synapse>): (ts: seq<Ref>)
    ensures |ts| == |syns|
    ensures forall k :: 0 <= k < |syns| ==> ts[k] == syns[k].target
  {
    seq(|syns|, k requires 0 <= k < |syns| => syns[k].target)
  }

  /** Every synapse of every neuron of group g points into the arena. */
  predicate LinkedGroup(a: Arena, g: nat)
    requires g < |a|
  {
    forall i :: 0 <= i < |a[g]| ==> Linked(a, a[g][i].synapses)
  }

  /** No neuron of group g has a synapse into group g itself. */
  predicate SelfFree(a: Arena, g: nat)
    requires g < |a|
  {
    forall i, k :: 0 <= i < |a[g]| && 0 <= k < |a[g][i].synapses| ==> a[g][i].synapses[k].target.group != g
  }

  /** Two arenas with the same groups, group sizes and synapse targets;
      weights, outputs, errors and labels may differ. */
  ghost predicate SameShape(a: Arena, b: Arena)
  {
    && |a| == |b|
    && (forall g :: 0 <= g < |a| ==> |a[g]| == |b[g]|)
    && (forall g, i :: 0 <= g < |a| && 0 <= i < |a[g]| ==> Targets(a[g][i].synapses) == Targets(b[g][i].synapses))
  }

  /** Every target of ts lies in the group before g, whose size is width. */
  predicate Feeds(ts: seq<Ref>, g: nat, width: nat)
  {
    forall k :: 0 <= k < |ts| ==> ts[k].group + 1 == g && ts[k].index < width
  }

  /** The wiring of a feed-forward arena: every synapse of a neuron of group
      g points at a neuron of group g - 1; group 0 has no synapses. */
  ghost predicate Wired(a: Arena)
  {
    forall g, i :: 0 <= g < |a| && 0 <= i < |a[g]| ==>
      Feeds(Targets(a[g][i].synapses), g, if g == 0 then 0 else |a[g - 1]|)
  }

  lemma SameShapeSymmetric(a: Arena, b: Arena)
    requires SameShape(a, b)
    ensures SameShape(b, a)
  {
  }

  lemma SameShapeTransitive(a: Arena, b: Arena, c: Arena)
    requires SameShape(a, b) && SameShape(b, c)
    ensures SameShape(a, c)
  {
    forall g, i | 0 <= g < |a| && 0 <= i < |a[g]|
      ensures Targets(a[g][i].synapses) == Targets(c[g][i].synapses)
    {
      assert Targets(a[g][i].synapses) == Targets(b[g][i].synapses);
    }
  }

  /** Operations that keep the shape keep the wiring. */
  lemma WiredPreserved(a: Arena, b: Arena)
    requires Wired(a) && SameShape(a, b)
    ensures Wired(b)
  {
    forall g, i | 0 <= g < |b| && 0 <= i < |b[g]|
      ensures Feeds(Targets(b[g][i].synapses), g, if g == 0 then 0 else |b[g - 1]|)
    {
      assert Feeds(Targets(a[g][i].synapses), g, if g == 0 then 0 else |a[g - 1]|);
    }
  }

  /** In a wired arena every group is linked and free of self-links. */
  lemma WiredGroup(a: Arena, g: nat)
    requires Wired(a) && g < |a|
    ensures LinkedGroup(a, g) && SelfFree(a, g)
  {
    forall i, k | 0 <= i < |a[g]| && 0 <= k < |a[g][i].synapses|
      ensures ValidRef(a, a[g][i].synapses[k].target) && a[g][i].synapses[k].target.group != g
    {
      assert Targets(a[g][i].synapses)[k] == a[g][i].synapses[k].target;
    }
  }

  /** Same-shape arenas link the same synapse lists. */
  lemma LinkedGroupPreserved(a: Arena, b: Arena, g: nat)
    requires SameShape(a, b) && g < |a| && LinkedGroup(a, g)
    ensures LinkedGroup(b, g)
  {
    forall i, k | 0 <= i < |b[g]| && 0 <= k < |b[g][i].synapses|
      ensures ValidRef(b, b[g][i].synapses[k].target)
    {
      assert Targets(a[g][i].synapses)[k] == Targets(b[g][i].synapses)[k];
      assert ValidRef(a, a[g][i].synapses[k].target);
    }
  }

  /** A weighted sum reads only the outputs of the synapses' targets. */
  lemma {:induction false} SumFrame(a: Arena, b: Arena, syns: seq<Synapse>)
    requires Linked(a, syns) && Linked(b, syns)
    requires forall k :: 0 <= k < |syns| ==> OutputOf(a, syns[k].target) == OutputOf(b, syns[k].target)
    ensures WeightedSum(a, syns) == WeightedSum(b, syns)
    decreases |syns|
  {
    if syns != [] {
      SumFrame(a, b, syns[..|syns| - 1]);
    }
  }

  // ----- connect -----------------------------------------------------------

  /** The synapses one neuron gains from connecting to a group of the given
      width: one per neuron of the group, in order, with successive draws. */
  function Links(src: nat, width: nat, draw: Draws, from: nat): seq<Synapse>
  {
    seq(width, j requires 0 <= j < width => Synapse(Ref(src, j), draw(from + j)))
  }

  lemma LinksWeights(src: nat, width: nat, draw: Draws, from: nat)
    ensures |Links(src, width, draw, from)| == width
    ensures forall j :: 0 <= j < width ==>
      Links(src, width, draw, from)[j].target == Ref(src, j) &&
      WeightMin <= Links(src, width, draw, from)[j].weight <= WeightMax
  {
  }

  /** Full bipartite wiring: every neuron of group g gains one synapse toward
      each neuron of group src, appended in src's order, with weights drawn in
      call order starting at draw number from.  Returns the next unused draw. */
  method Connect(a: Arena, g: nat, src: nat, draw: Draws, from: nat) returns (b: Arena, next: nat)
    requires g < |a| && src < |a|
    ensures next == from + |a[g]| * |a[src]|
    ensures |b| == |a| && forall h :: 0 <= h < |a| && h != g ==> b[h] == a[h]
    ensures |b[g]| == |a[g]|
    ensures forall i :: 0 <= i < |a[g]| ==>
      b[g][i] == a[g][i].(synapses := a[g][i].synapses + Links(src, |a[src]|, draw, from + i * |a[src]|))
  {
    var m := |a[src]|;
    b := a;
    next := from;
    var i := 0;
    while i < |a[g]|
      invariant 0 <= i <= |a[g]|
      invariant next == from + i * m
      invariant |b| == |a| && forall h :: 0 <= h < |a| && h != g ==> b[h] == a[h]
      invariant |b[g]| == |a[g]|
      invariant forall i' :: 0 <= i' < i ==>
        b[g][i'] == a[g][i'].(synapses := a[g][i'].synapses + Links(src, m, draw, from + i' * m))
      invariant forall i' :: i <= i' < |a[g]| ==> b[g][i'] == a[g][i']
    {
      var j := 0;
      var base := next;
      var before := b[g];
      while j < m
        invariant 0 <= j <= m
        invariant next == base + j
        invariant |b| == |a| && forall h :: 0 <= h < |a| && h != g ==> b[h] == a[h]
        invariant |b[g]| == |a[g]|
        invariant forall i' :: 0 <= i' < |a[g]| && i' != i ==> b[g][i'] == before[i']
        invariant b[g][i] == a[g][i].(synapses := a[g][i].synapses + Links(src, j, draw, base))
      {
        assert Links(src, j + 1, draw, base) == Links(src, j, draw, base) + [Synapse(Ref(src, j), draw(base + j))];
        b := b[g := b[g][i := CreateLink(b[g][i], Ref(src, j), draw(next))]];
        next := next + 1;
        j := j + 1;
      }
      assert (i + 1) * m == i * m + m;
      i := i + 1;
    }
  }

  // ----- set / setCategory -----------------------------------------------

  /** What a bounds-checked write does as the source writes it: throws, writes,
      or reads past the end of the neuron vector. */
  datatype Outcome = Thrown(error: Error) | Written(layer: Primitive) | PastTheEnd

  /** The bounds check as written rejects only positions beyond the size. */
  function SetAsWritten(p: Primitive, pos: nat, v: real): (r: Outcome)
    ensures r.Thrown? <==> pos > |p|
    ensures r.PastTheEnd? <==> pos == |p|
  {
    if pos > |p| then Thrown(OutOfRange)
    else if pos < |p| then Written(p[pos := p[pos].(output := v)])
    else PastTheEnd
  }

  function SetCategoryAsWritten(p: Primitive, pos: nat, c: string): (r: Outcome)
    ensures r.Thrown? <==> pos > |p|
    ensures r.PastTheEnd? <==> pos == |p|
  {
    if pos > |p| then Thrown(OutOfRange)
    else if pos < |p| then Written(p[pos := p[pos].(category := c)])
    else PastTheEnd
  }

  /** The position one past the end passes the check as written, for every
      layer, and then reaches no neuron. */
  lemma OnePastTheEndGetsThrough(p: Primitive, v: real, c: string)
    ensures SetAsWritten(p, |p|, v) == PastTheEnd && Set(p, |p|, v) == Err(OutOfRange)
    ensures SetCategoryAsWritten(p, |p|, c) == PastTheEnd && SetCategory(p, |p|, c) == Err(OutOfRange)
  {
  }

  /** Sets the output of the neuron at pos; out_of_range for any position
      that holds no neuron. */
  function Set(p: Primitive, pos: nat, v: real): (r: Result<Primitive, Error>)
    ensures r.Err? <==> pos >= |p|
    ensures r.Err? ==> r.error == OutOfRange
    ensures r.Ok? ==> |r.value| == |p| && r.value[pos].output == v
    ensures r.Ok? ==> r.value[pos].synapses == p[pos].synapses && r.value[pos].category == p[pos].category &&
                      r.value[pos].error == p[pos].error
    ensures r.Ok? ==> forall i :: 0 <= i < |p| && i != pos ==> r.value[i] == p[i]
  {
    if pos >= |p| then Err(OutOfRange) else Ok(p[pos := p[pos].(output := v)])
  }

  /** Sets the label of the neuron at pos; out_of_range for any position that
      holds no neuron. */
  function SetCategory(p: Primitive, pos: nat, c: string): (r: Result<Primitive, Error>)
    ensures r.Err? <==> pos >= |p|
    ensures r.Err? ==> r.error == OutOfRange
    ensures r.Ok? ==> |r.value| == |p| && r.value[pos].category == c
    ensures r.Ok? ==> r.value[pos].synapses == p[pos].synapses && r.value[pos].output == p[pos].output &&
                      r.value[pos].error == p[pos].error
    ensures r.Ok? ==> forall i :: 0 <= i < |p| && i != pos ==> r.value[i] == p[i]
  {
    if pos >= |p| then Err(OutOfRange) else Ok(p[pos := p[pos].(category := c)])
  }

  function AsOutcome(r: Result<Primitive, Error>): Outcome
  {
    match r
    case Ok(q) => Written(q)
    case Err(e) => Thrown(e)
  }

  /** Apart from the one position the check as written lets through, the
      corrected writes behave exactly as written. */
  lemma CorrectedAgreesAsWritten(p: Primitive, pos: nat, v: real, c: string)
    requires pos != |p|
    ensures AsOutcome(Set(p, pos, v)) == SetAsWritten(p, pos, v)
    ensures AsOutcome(SetCategory(p, pos, c)) == SetCategoryAsWritten(p, pos, c)
  {
  }

  // ----- update(category) --------------------------------------------------

  /** Error of every neuron of the layer against the one-hot target of the
      given label. */
  function Categorized(p: Primitive, category: string): (q: Primitive)
    ensures |q| == |p|
    ensures forall i :: 0 <= i < |p| ==> q[i] == UpdateCategory(p[i], category)
  {
    seq(|p|, i requires 0 <= i < |p| => UpdateCategory(p[i], category))
  }

  /** Applies update(category) to every neuron of the layer in order. */
  method UpdateCategories(p: Primitive, category: string) returns (q: Primitive)
    ensures q == Categorized(p, category)
  {
    q := p;
    var i := 0;
    while i < |p|
      invariant 0 <= i <= |p| && |q| == |p|
      invariant forall j :: 0 <= j < i ==> q[j] == UpdateCategory(p[j], category)
      invariant forall j :: i <= j < |p| ==> q[j] == p[j]
    {
      q := q[i := UpdateCategory(q[i], category)];
      i := i + 1;
    }
    assert q == Categorized(p, category);
  }

  // ----- calculate ---------------------------------------------------------

  /** Every neuron of group g takes the sigmoid of its weighted sum, all read
      from the arena before the layer started. */
  function Calculated(a: Arena, exp: Exp, g: nat): (r: Arena)
    requires g < |a| && LinkedGroup(a, g)
    ensures SameShape(a, r)
    ensures forall h :: 0 <= h < |a| && h != g ==> r[h] == a[h]
    ensures forall i :: 0 <= i < |a[g]| ==>
      0.0 < r[g][i].output < 1.0 && r[g][i] == a[g][i].(output := r[g][i].output)
  {
    a[g := seq(|a[g]|, i requires 0 <= i < |a[g]| =>
                 a[g][i].(output := Sigmoid(exp, WeightedSum(a, a[g][i].synapses))))]
  }

  /** Transfers every neuron of group g in order.  Each neuron reads the
      arena as left by the neurons before it; when no neuron of the group
      links into the group itself, the order does not matter and the result
      is the layer computed all at once. */
  method Calculate(a: Arena, exp: Exp, g: nat) returns (b: Arena)
    requires g < |a| && LinkedGroup(a, g)
    ensures SameShape(a, b)
    ensures forall h :: 0 <= h < |a| && h != g ==> b[h] == a[h]
    ensures forall i :: 0 <= i < |a[g]| ==>
      0.0 < b[g][i].output < 1.0 && b[g][i] == a[g][i].(output := b[g][i].output)
    ensures SelfFree(a, g) ==> b == Calculated(a, exp, g)
  {
    b := a;
    var i := 0;
    while i < |a[g]|
      invariant 0 <= i <= |a[g]|
      invariant |b| == |a| && forall h :: 0 <= h < |a| && h != g ==> b[h] == a[h]
      invariant |b[g]| == |a[g]|
      invariant forall j :: i <= j < |a[g]| ==> b[g][j] == a[g][j]
      invariant forall j :: 0 <= j < i ==>
        0.0 < b[g][j].output < 1.0 && b[g][j] == a[g][j].(output := b[g][j].output)
      invariant SelfFree(a, g) ==> forall j :: 0 <= j < i ==> b[g][j] == Calculated(a, exp, g)[g][j]
    {
      var syns := a[g][i].synapses;
      assert Linked(a, syns);
      assert Linked(b, syns) by {
        forall k | 0 <= k < |syns|
          ensures ValidRef(b, syns[k].target)
        {
          assert ValidRef(a, syns[k].target);
        }
      }
      var n := Transfer(b, exp, b[g][i]);
      if SelfFree(a, g) {
        SumFrame(a, b, syns);
      }
      b := b[g := b[g][i := n]];
      i := i + 1;
    }
    assert SameShape(a, b) by {
      forall h, j | 0 <= h < |a| && 0 <= j < |a[h]|
        ensures Targets(a[h][j].synapses) == Targets(b[h][j].synapses)
      {
        assert a[h][j].synapses == b[h][j].synapses;
      }
    }
    if SelfFree(a, g) {
      assert b[g] == Calculated(a, exp, g)[g];
    }
  }

  // ----- update(Primitive&) ------------------------------------------------

  /** What one neuron of the layer above adds to the error of the neuron t:
      its first weight toward t times its error, or nothing without a
      synapse toward t. */
  function Contribution(n: Neuron, t: Ref): real
  {
    match GetWeight(n, Some(t))
    case Some(w) => w * n.error
    case None => 0.0
  }

  /** The back-propagated error of neuron t: the contributions of all
      neurons of the layer above, in order. */
  function BackSum(layer: seq<Neuron>, t: Ref): real
    decreases |layer|
  {
    if layer == [] then 0.0
    else BackSum(layer[..|layer| - 1], t) + Contribution(layer[|layer| - 1], t)
  }

  /** Neurons without a synapse toward t contribute nothing. */
  lemma {:induction false} BackSumUnlinked(layer: seq<Neuron>, t: Ref)
    requires forall i, k :: 0 <= i < |layer| && 0 <= k < |layer[i].synapses| ==> layer[i].synapses[k].target != t
    ensures BackSum(layer, t) == 0.0
    decreases |layer|
  {
    if layer != [] {
      BackSumUnlinked(layer[..|layer| - 1], t);
      assert GetWeight(layer[|layer| - 1], Some(t)).None?;
    }
  }

  /** The back-propagated sum splits over a split of the layer above. */
  lemma {:induction false} BackSumAppend(x: seq<Neuron>, y: seq<Neuron>, t: Ref)
    ensures BackSum(x + y, t) == BackSum(x, t) + BackSum(y, t)
    decreases |y|
  {
    if y == [] {
      assert x + y == x;
    } else {
      var y' := y[..|y| - 1];
      assert (x + y)[..|x + y| - 1] == x + y';
      BackSumAppend(x, y', t);
    }
  }

  /** The inner loop of the back-propagation: the sum of the contributions
      of the layer above to the error of t. */
  method Accumulate(above: seq<Neuron>, t: Ref) returns (acc: real)
    ensures acc == BackSum(above, t)
  {
    acc := 0.0;
    var j := 0;
    while j < |above|
      invariant 0 <= j <= |above|
      invariant acc == BackSum(above[..j], t)
    {
      assert above[..j + 1][..j] == above[..j];
      var w := GetWeight(above[j], Some(t));
      if w.Some? {
        acc := acc + w.value * above[j].error;
      }
      j := j + 1;
    }
    assert above[..j] == above;
  }

  /** Every neuron of group g takes as error the back-propagated sum from
      group other, all read before the layer started. */
  function BackPropagated(a: Arena, g: nat, other: nat): (r: Arena)
    requires g < |a| && other < |a|
    ensures SameShape(a, r)
    ensures forall h :: 0 <= h < |a| && h != g ==> r[h] == a[h]
    ensures forall i :: 0 <= i < |a[g]| ==> r[g][i] == a[g][i].(error := r[g][i].error)
  {
    a[g := seq(|a[g]|, i requires 0 <= i < |a[g]| => UpdateError(a[g][i], BackSum(a[other], Ref(g, i))))]
  }

  /** For each neuron of group g in order, accumulates over the neurons of
      group other their weight toward it times their error, then stores the
      sum as its error.  Only the errors of group g change; when the two
      groups differ the result is the layer computed all at once. */
  method Backpropagate(a: Arena, g: nat, other: nat) returns (b: Arena)
    requires g < |a| && other < |a|
    ensures SameShape(a, b)
    ensures forall h :: 0 <= h < |a| && h != g ==> b[h] == a[h]
    ensures forall i :: 0 <= i < |a[g]| ==> b[g][i] == a[g][i].(error := b[g][i].error)
    ensures g != other ==> b == BackPropagated(a, g, other)
  {
    b := a;
    var i := 0;
    while i < |a[g]|
      invariant 0 <= i <= |a[g]|
      invariant |b| == |a| && forall h :: 0 <= h < |a| && h != g ==> b[h] == a[h]
      invariant |b[g]| == |a[g]|
      invariant forall j :: i <= j < |a[g]| ==> b[g][j] == a[g][j]
      invariant forall j :: 0 <= j < i ==> b[g][j] == a[g][j].(error := b[g][j].error)
      invariant g != other ==> forall j :: 0 <= j < i ==> b[g][j] == BackPropagated(a, g, other)[g][j]
    {
      var acc := Accumulate(b[other], Ref(g, i));
      b := b[g := b[g][i := UpdateError(b[g][i], acc)]];
      i := i + 1;
    }
    assert SameShape(a, b) by {
      forall h, j | 0 <= h < |a| && 0 <= j < |a[h]|
        ensures Targets(a[h][j].synapses) == Targets(b[h][j].synapses)
      {
        assert a[h][j].synapses == b[h][j].synapses;
      }
    }
    if g != other {
      assert b[g] == BackPropagated(a, g, other)[g];
    }
  }

  // ----- updateWeight ------------------------------------------------------

  /** A neuron's weight update reads only the outputs of its targets. */
  lemma TrainedFrame(a: Arena, b: Arena, n: Neuron, slope: real)
    requires Linked(a, n.synapses) && Linked(b, n.synapses)
    requires forall k :: 0 <= k < |n.synapses| ==>
      OutputOf(a, n.synapses[k].target) == OutputOf(b, n.synapses[k].target)
    ensures Trained(a, n, slope) == Trained(b, n, slope)
  {
    var x := Trained(a, n, slope);
    var y := Trained(b, n, slope);
    forall k | 0 <= k < |n.synapses|
      ensures x.synapses[k] == y.synapses[k]
    {
      var t := n.synapses[k].target;
      assert Step(a, n, t, slope) == Step(b, n, t, slope);
    }
    assert x.synapses == y.synapses;
  }

  /** Every neuron of group g after one weight update. */
  function Retrained(a: Arena, exp: Exp, g: nat): (r: Arena)
    requires g < |a| && LinkedGroup(a, g)
    ensures SameShape(a, r)
    ensures forall h :: 0 <= h < |a| && h != g ==> r[h] == a[h]
    ensures forall i :: 0 <= i < |a[g]| ==> r[g][i] == a[g][i].(synapses := r[g][i].synapses)
  {
    var r := a[g := seq(|a[g]|, i requires 0 <= i < |a[g]| => Trained(a, a[g][i], Slope(exp, a[g][i])))];
    assert SameShape(a, r) by {
      forall h, j | 0 <= h < |a| && 0 <= j < |a[h]|
        ensures Targets(a[h][j].synapses) == Targets(r[h][j].synapses)
      {
      }
    }
    r
  }

  /** Updates the weights of every neuron of group g in order.  The update
      changes no output, and reads nothing else, so the order does not
      matter. */
  method UpdateWeights(a: Arena, exp: Exp, g: nat) returns (b: Arena)
    requires g < |a| && LinkedGroup(a, g)
    ensures b == Retrained(a, exp, g)
  {
    b := a;
    var i := 0;
    while i < |a[g]|
      invariant 0 <= i <= |a[g]|
      invariant |b| == |a| && forall h :: 0 <= h < |a| && h != g ==> b[h] == a[h]
      invariant |b[g]| == |a[g]|
      invariant forall j :: i <= j < |a[g]| ==> b[g][j] == a[g][j]
      invariant forall j :: 0 <= j < i ==> b[g][j] == Trained(a, a[g][j], Slope(exp, a[g][j]))
    {
      var n := a[g][i];
      assert Linked(a, n.synapses);
      assert Linked(b, n.synapses) && forall k :: 0 <= k < |n.synapses| ==>
        OutputOf(a, n.synapses[k].target) == OutputOf(b, n.synapses[k].target) by {
        forall k | 0 <= k < |n.synapses|
          ensures ValidRef(b, n.synapses[k].target)
          ensures OutputOf(a, n.synapses[k].target) == OutputOf(b, n.synapses[k].target)
        {
          var t := n.synapses[k].target;
          assert ValidRef(a, t);
          if t.group == g && t.index < i {
            assert b[g][t.index].output == Trained(a, a[g][t.index], Slope(exp, a[g][t.index])).output;
          }
        }
      }
      TrainedFrame(a, b, n, Slope(exp, n));
      var m := UpdateWeight(b, exp, b[g][i]);
      b := b[g := b[g][i := m]];
      i := i + 1;
    }
    assert b[g] == Retrained(a, exp, g)[g];
  }
}
