/** The layer holders of a network (PrimitiveLayer, InputLayer, HiddenLayer
    and OutputLayer in Network.hpp).  A holder is empty until created, then
    holds either one Primitive (the single shape) or a list of Primitives
    (the multi shape). */
module Layers {
  import opened Wrappers
  import opened Neurons
  import opened Primitives

  /** The three holder classes; they differ only in their type. */
  datatype LayerType = InputLayer | HiddenLayer | OutputLayer

  /** is_single_layer: the roles meant to hold one Primitive. */
  function IsSingleLayer(t: LayerType): (r: bool)
    ensures r <==> t == InputLayer || t == OutputLayer
    ensures !r <==> t == HiddenLayer
  {
    match t
    case InputLayer => true
    case HiddenLayer => false
    case OutputLayer => true
  }

  /** The contents of a created holder. */
  datatype Shape = Single(layer: Primitive) | Multi(groups: seq<Primitive>)

  /** The groups a shape contributes to a network, in order. */
  function Groups(s: Shape): (gs: seq<Primitive>)
    ensures s.Single? ==> gs == [s.layer]
    ensures s.Multi? ==> gs == s.groups
  {
    match s
    case Single(p) => [p]
    case Multi(groups) => groups
  }

  /** A Primitive of the given size as its constructor makes it. */
  function FreshLayer(size: nat): (p: Primitive)
    ensures |p| == size
    ensures forall i :: 0 <= i < size ==> p[i] == Neurons.New()
  {
    seq(size, _ => Neurons.New())
  }

  /** Every neuron a shape holds is as the Primitive constructor made it. */
  ghost predicate AllFresh(s: Shape)
  {
    forall g, i :: 0 <= g < |Groups(s)| && 0 <= i < |Groups(s)[g]| ==> Groups(s)[g][i] == Neurons.New()
  }

  /** The contents after create(size, false_type): an empty holder gets a
      list with one new group; a list gets one more group at its end; a
      holder with a single Primitive is left as it is. */
  function AfterMulti(layers: Option<Shape>, size: nat): (r: Option<Shape>)
    ensures r.Some?
    ensures layers.None? ==> r == Some(Multi([FreshLayer(size)]))
    ensures layers.Some? && layers.value.Single? ==> r == layers
    ensures layers.Some? && layers.value.Multi? ==> r == Some(Multi(layers.value.groups + [FreshLayer(size)]))
  {
    var held := if layers.None? then Multi([]) else layers.value;
    match held
    case Multi(groups) =>
      assert layers.None? ==> groups + [FreshLayer(size)] == [FreshLayer(size)];
      Some(Multi(groups + [FreshLayer(size)]))
    case Single(_) => layers
  }

  /** The contents after a series of create(size, false_type) calls. */
  function AfterMultis(layers: Option<Shape>, sizes: seq<nat>): Option<Shape>
    decreases |sizes|
  {
    if sizes == [] then layers else AfterMultis(AfterMulti(layers, sizes[0]), sizes[1..])
  }

  function FreshLayers(sizes: seq<nat>): (ps: seq<Primitive>)
    ensures |ps| == |sizes|
    ensures forall i :: 0 <= i < |sizes| ==> ps[i] == FreshLayer(sizes[i])
  {
    seq(|sizes|, i requires 0 <= i < |sizes| => FreshLayer(sizes[i]))
  }

  /** Repeated multi-shape creates append their groups in call order and
      leave the earlier groups as they were. */
  lemma {:induction false} CreatesAppendInOrder(groups: seq<Primitive>, sizes: seq<nat>)
    ensures AfterMultis(Some(Multi(groups)), sizes) == Some(Multi(groups + FreshLayers(sizes)))
    decreases |sizes|
  {
    if sizes == [] {
      assert groups + FreshLayers(sizes) == groups;
    } else {
      var groups' := groups + [FreshLayer(sizes[0])];
      CreatesAppendInOrder(groups', sizes[1..]);
      assert groups' + FreshLayers(sizes[1..]) == groups + FreshLayers(sizes);
    }
  }

  /** From an uninitialised holder, n multi-shape creates give a list of
      exactly those n groups. */
  lemma CreatesFromNothing(sizes: seq<nat>)
    requires |sizes| > 0
    ensures AfterMultis(None, sizes) == Some(Multi(FreshLayers(sizes)))
  {
    CreatesAppendInOrder([FreshLayer(sizes[0])], sizes[1..]);
    assert [FreshLayer(sizes[0])] + FreshLayers(sizes[1..]) == FreshLayers(sizes);
  }

  /** Multi-shape creates on a holder with a single Primitive are all
      silently ignored. */
  lemma {:induction false} CreatesOnSingleIgnored(p: Primitive, sizes: seq<nat>)
    ensures AfterMultis(Some(Single(p)), sizes) == Some(Single(p))
    decreases |sizes|
  {
    if sizes != [] {
      CreatesOnSingleIgnored(p, sizes[1..]);
    }
  }

  lemma FreshAppended(groups: seq<Primitive>, size: nat)
    requires AllFresh(Multi(groups))
    ensures AllFresh(Multi(groups + [FreshLayer(size)]))
  {
    var gs := groups + [FreshLayer(size)];
    forall g, i | 0 <= g < |gs| && 0 <= i < |gs[g]|
      ensures gs[g][i] == Neurons.New()
    {
      if g < |groups| {
        assert Groups(Multi(groups))[g] == groups[g] == gs[g];
      }
    }
  }

  class PrimitiveLayer {
    const kind: LayerType
    var layers: Option<Shape>

    ghost predicate Valid()
      reads this
    {
      layers.Some? ==> AllFresh(layers.value)
    }

    constructor(kind: LayerType)
      ensures this.kind == kind && layers == None && Valid()
    {
      this.kind := kind;
      layers := None;
    }

    /** create(size, true_type): holds exactly one new Primitive of the
        given size, whatever it held before. */
    method CreateSingle(size: nat)
      modifies this
      ensures Valid()
      ensures layers == Some(Single(FreshLayer(size)))
    {
      var p := Primitives.Fresh(size);
      assert p == FreshLayer(size);
      layers := Some(Single(p));
    }

    /** create(size, false_type). */
    method CreateMulti(size: nat)
      requires Valid()
      modifies this
      ensures Valid()
      ensures layers == AfterMulti(old(layers), size)
    {
      if layers.None? {
        layers := Some(Multi([]));
      }
      if layers.value.Multi? {
        var p := Primitives.Fresh(size);
        assert p == FreshLayer(size);
        FreshAppended(layers.value.groups, size);
        layers := Some(Multi(layers.value.groups + [p]));
      }
    }
  }
}
