/** A neuron of the header API (network::Neuron in Neuron.hpp): an output,
    an error, one category label and an ordered list of outgoing synapses,
    each a (target neuron, weight) pair.

    Neurons live in an arena: a sequence of groups, each a sequence of neuron
    records.  A synapse names its target by a handle (group, index) into that
    arena instead of a shared_ptr.  Operations that read other neurons
    take the arena; operations that only touch the neuron itself take the
    record.  Each returns the updated record, which the caller stores back at
    the neuron's place in the arena. */
module Neurons {
  import opened Wrappers
  import opened Constants
  import opened Activation

  /** Handle of a neuron: its group in the arena and its position there. */
  datatype Ref = Ref(group: nat, index: nat)

  datatype Synapse = Synapse(target: Ref, weight: real)

  datatype Neuron = Neuron(synapses: seq<Synapse>, category: string, output: real, error: real)

  /** Groups of neurons; synapse targets point into it. */
  type Arena = seq<seq<Neuron>>

  predicate ValidRef<T>(a: seq<seq<T>>, r: Ref)
  {
    r.group < |a| && r.index < |a[r.group]|
  }

  /** Every synapse of the list points at a neuron of the arena. */
  predicate Linked(a: Arena, syns: seq<Synapse>)
  {
    forall k :: 0 <= k < |syns| ==> ValidRef(a, syns[k].target)
  }

  function OutputOf(a: Arena, r: Ref): real
    requires ValidRef(a, r)
  {
    a[r.group][r.index].output
  }

  /** A default-constructed neuron. */
  function New(): (n: Neuron)
    ensures n.synapses == [] && n.category == ""
    ensures n.output == 0.5 && n.error == 0.5
  {
    Neuron([], "", OutputNeuronDefault, ErrorDefault)
  }

  /** Number of outgoing synapses, duplicates included. */
  function Size(n: Neuron): (r: nat)
    ensures r == |n.synapses|
  {
    |n.synapses|
  }

  /** Appends one synapse at the end; an existing link to the same target is
      kept, so the list may hold duplicates. */
  function CreateLink(n: Neuron, target: Ref, weight: real): (r: Neuron)
    ensures Size(r) == Size(n) + 1
    ensures r.synapses[..Size(n)] == n.synapses
    ensures r.synapses[Size(n)] == Synapse(target, weight)
    ensures r.category == n.category && r.output == n.output && r.error == n.error
  {
    n.(synapses := n.synapses + [Synapse(target, weight)])
  }

  /** The sum of target output times weight over a list of synapses. */
  function WeightedSum(a: Arena, syns: seq<Synapse>): real
    requires Linked(a, syns)
    decreases |syns|
  {
    if syns == [] then 0.0
    else
      var last := syns[|syns| - 1];
      WeightedSum(a, syns[..|syns| - 1]) + OutputOf(a, last.target) * last.weight
  }

  /** Forward step of one neuron: its output becomes the sigmoid of the
      weighted sum of its targets' outputs; nothing else changes. */
  method Transfer(a: Arena, exp: Exp, n: Neuron) returns (r: Neuron)
    requires Linked(a, n.synapses)
    ensures r == n.(output := Sigmoid(exp, WeightedSum(a, n.synapses)))
    ensures 0.0 < r.output < 1.0
  {
    var acc := 0.0;
    var i := 0;
    while i < |n.synapses|
      invariant 0 <= i <= |n.synapses|
      invariant acc == WeightedSum(a, n.synapses[..i])
    {
      var s := n.synapses[i];
      assert n.synapses[..i + 1][..i] == n.synapses[..i];
      acc := acc + OutputOf(a, s.target) * s.weight;
      i := i + 1;
    }
    assert n.synapses[..i] == n.synapses;
    r := n.(output := Sigmoid(exp, acc));
  }

  /** Error of a labelled neuron against a one-hot target: 1 when the given
      label is its own, 0 otherwise.  An unlabelled neuron is left alone. */
  function UpdateCategory(n: Neuron, category: string): (r: Neuron)
    ensures r.synapses == n.synapses && r.category == n.category && r.output == n.output
    ensures n.category == "" ==> r == n
    ensures n.category != "" ==> (r.error + r.output == 1.0 <==> n.category == category)
    ensures n.category != "" && n.category != category ==> r.error + r.output == 0.0
  {
    if n.category == "" then n
    else
      var expected := if n.category == category then 1.0 else 0.0;
      n.(error := expected - n.output)
  }

  /** Stores a back-propagated error as it is. */
  function UpdateError(n: Neuron, error: real): (r: Neuron)
    ensures r.error == error
    ensures r.synapses == n.synapses && r.category == n.category && r.output == n.output
  {
    n.(error := error)
  }

  /** The gradient step of one synapse toward target t:
      learning rate * error * output of t * difference quotient of the
      sigmoid at the neuron's own output. */
  function Step(a: Arena, n: Neuron, t: Ref, slope: real): real
    requires ValidRef(a, t)
  {
    LearningRateDefault * n.error * OutputOf(a, t) * slope
  }

  /** Difference quotient of the sigmoid at the neuron's own output. */
  function Slope(exp: Exp, n: Neuron): real
  {
    Differential(SigmoidOf(exp), n.output)
  }

  /** The neuron after one weight update: each weight moves by its step. */
  function Trained(a: Arena, n: Neuron, slope: real): (r: Neuron)
    requires Linked(a, n.synapses)
    ensures |r.synapses| == |n.synapses|
    ensures forall k :: 0 <= k < |n.synapses| ==>
      r.synapses[k].target == n.synapses[k].target &&
      r.synapses[k].weight == n.synapses[k].weight + Step(a, n, n.synapses[k].target, slope)
    ensures r.category == n.category && r.output == n.output && r.error == n.error
  {
    var syns := n.synapses;
    n.(synapses := seq(|syns|, k requires 0 <= k < |syns| =>
                           syns[k].(weight := syns[k].weight + Step(a, n, syns[k].target, slope))))
  }

  /** Rewrites every weight in place with its gradient step. */
  method UpdateWeight(a: Arena, exp: Exp, n: Neuron) returns (r: Neuron)
    requires Linked(a, n.synapses)
    ensures r == Trained(a, n, Slope(exp, n))
  {
    var syns := n.synapses;
    var slope := Slope(exp, n);
    var i := 0;
    while i < |syns|
      invariant 0 <= i <= |syns| && |syns| == |n.synapses|
      invariant forall k :: 0 <= k < i ==>
        syns[k] == Synapse(n.synapses[k].target, n.synapses[k].weight + Step(a, n, n.synapses[k].target, slope))
      invariant forall k :: i <= k < |syns| ==> syns[k] == n.synapses[k]
    {
      var s := syns[i];
      syns := syns[i := Synapse(s.target, s.weight + Step(a, n, s.target, slope))];
      i := i + 1;
    }
    r := n.(synapses := syns);
    assert r.synapses == Trained(a, n, slope).synapses;
  }

  /** Position of the first synapse whose target is t (std::find_if), or the
      length of the list when there is none. */
  function FindTarget(syns: seq<Synapse>, t: Ref): (k: nat)
    ensures k <= |syns|
    ensures forall j :: 0 <= j < k ==> syns[j].target != t
    ensures k < |syns| ==> syns[k].target == t
    decreases |syns|
  {
    if syns == [] then 0
    else if syns[0].target == t then 0
    else 1 + FindTarget(syns[1..], t)
  }

  /** Weight of the first synapse toward t; none for a null t or when no
      synapse points at t. */
  function GetWeight(n: Neuron, t: Option<Ref>): (r: Option<real>)
    ensures t.None? ==> r.None?
    ensures t.Some? ==> (r.Some? <==> exists k :: 0 <= k < |n.synapses| && n.synapses[k].target == t.value)
    ensures r.Some? ==> exists k :: 0 <= k < |n.synapses| && n.synapses[k] == Synapse(t.value, r.value) &&
                           forall j :: 0 <= j < k ==> n.synapses[j].target != t.value
  {
    if t.None? then None
    else
      var k := FindTarget(n.synapses, t.value);
      if k < |n.synapses| then Some(n.synapses[k].weight) else None
  }

  /** Neuron equality is identity: the same place in the arena, whatever the
      contents. */
  function Identical(x: Ref, y: Ref): (r: bool)
    ensures r <==> x.group == y.group && x.index == y.index
  {
    x == y
  }

  /** Two neurons with equal contents at different places are not equal. */
  lemma EqualityIsIdentity(a: Arena, x: Ref, y: Ref)
    requires ValidRef(a, x) && ValidRef(a, y) && x != y
    requires a[x.group][x.index] == a[y.group][y.index]
    ensures !Identical(x, y)
  {
  }

  /** Linking then looking up: a new target yields the new weight; a target
      already linked keeps answering with its first weight, although the
      list grew by one. */
  lemma {:induction false} LinkThenGetWeight(n: Neuron, t: Ref, w: real)
    ensures Size(CreateLink(n, t, w)) == Size(n) + 1
    ensures GetWeight(CreateLink(n, t, w), Some(t)) ==
            if GetWeight(n, Some(t)).Some? then GetWeight(n, Some(t)) else Some(w)
  {
    var m := CreateLink(n, t, w);
    var k := FindTarget(n.synapses, t);
    var k' := FindTarget(m.synapses, t);
    assert forall j :: 0 <= j < |n.synapses| ==> m.synapses[j] == n.synapses[j];
    if k < |n.synapses| {
      assert k' == k;
    } else {
      assert m.synapses[|n.synapses|].target == t;
      assert k' == |n.synapses|;
    }
  }

  /** A neuron with zero error keeps its weights. */
  lemma ZeroErrorKeepsWeights(a: Arena, n: Neuron, slope: real)
    requires Linked(a, n.synapses)
    requires n.error == 0.0
    ensures Trained(a, n, slope) == n
  {
    var r := Trained(a, n, slope);
    forall k | 0 <= k < |n.synapses|
      ensures r.synapses[k] == n.synapses[k]
    {
      assert Step(a, n, n.synapses[k].target, slope) == 0.0;
    }
    assert r.synapses == n.synapses;
  }

  /** With an increasing exp and non-negative target outputs, each weight
      moves in the direction of the neuron's error. */
  lemma TrainedFollowsError(a: Arena, exp: Exp, n: Neuron, k: nat)
    requires Increasing(exp)
    requires Linked(a, n.synapses)
    requires k < |n.synapses| && OutputOf(a, n.synapses[k].target) >= 0.0
    ensures n.error >= 0.0 ==> Trained(a, n, Slope(exp, n)).synapses[k].weight >= n.synapses[k].weight
    ensures n.error <= 0.0 ==> Trained(a, n, Slope(exp, n)).synapses[k].weight <= n.synapses[k].weight
  {
    SlopeNonNegative(exp, n);
    StepSign(a, n, n.synapses[k].target, Slope(exp, n));
  }

  /** Sign of a gradient step toward a target with non-negative output, when
      the slope is non-negative: the sign of the neuron's error. */
  lemma StepSign(a: Arena, n: Neuron, t: Ref, slope: real)
    requires ValidRef(a, t) && OutputOf(a, t) >= 0.0 && slope >= 0.0
    ensures n.error >= 0.0 ==> Step(a, n, t, slope) >= 0.0
    ensures n.error <= 0.0 ==> Step(a, n, t, slope) <= 0.0
  {
    ProductSign(n.error, OutputOf(a, t), slope);
  }

  lemma ProductSign(e: real, o: real, d: real)
    requires o >= 0.0 && d >= 0.0
    ensures e >= 0.0 ==> LearningRateDefault * e * o * d >= 0.0
    ensures e <= 0.0 ==> LearningRateDefault * e * o * d <= 0.0
  {
    var od := o * d;
    assert od >= 0.0;
    assert LearningRateDefault * e * o * d == LearningRateDefault * e * od;
  }

  /** The sigmoid's difference quotient is never negative. */
  lemma SlopeNonNegative(exp: Exp, n: Neuron)
    requires Increasing(exp)
    ensures Slope(exp, n) >= 0.0
  {
    SigmoidIncreasing(exp);
    DifferentialOfMonotone(SigmoidOf(exp), n.output);
  }

  lemma SigmoidIncreasing(exp: Exp)
    requires Increasing(exp)
    ensures Increasing(SigmoidOf(exp))
  {
    forall u, v | u <= v
      ensures SigmoidOf(exp)(u) <= SigmoidOf(exp)(v)
    {
      SigmoidMonotone(exp, u, v);
    }
  }
}
