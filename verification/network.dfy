/** The network (Network in Network.hpp and Network.cpp): three layer
    holders, a dataset path, a list of category names and an optional epoch
    count.

    The network keeps the groups of its three holders in one arena: the
    input holder's groups, then the hidden holder's, then the output
    holder's.  For each holder it records which shape it held (one
    Primitive, or a list of n groups). */
module Networks {
  import opened Wrappers
  import opened Constants
  import opened Activation
  import opened Neurons
  import opened Primitives
  import opened Layers
  import opened Training

  /** The shape a created holder had: one Primitive, or a list of groups. */
  datatype Kind = SingleKind | MultiKind(count: nat)

  function KindOf(s: Shape): (k: Kind)
    ensures k.SingleKind? <==> s.Single?
    ensures k.MultiKind? ==> k.count == |s.groups|
  {
    match s
    case Single(_) => SingleKind
    case Multi(groups) => MultiKind(|groups|)
  }

  /** Number of groups a holder of that kind contributes. */
  function Count(k: Option<Kind>): nat
  {
    match k
    case None => 0
    case Some(SingleKind) => 1
    case Some(MultiKind(n)) => n
  }

  /** The targets of a neuron connected to every neuron of group src, in
      order. */
  function Column(src: nat, width: nat): (ts: seq<Ref>)
    ensures |ts| == width
    ensures forall j :: 0 <= j < width ==> ts[j] == Ref(src, j)
  {
    seq(width, j requires 0 <= j < width => Ref(src, j))
  }

  /** Every neuron of group g is connected to every neuron of group g - 1,
      in order, with a weight in [-0.5, 0.5]; its fan-in is the size of
      group g - 1. */
  ghost predicate FullyLinked(a: Arena, g: nat)
    requires 0 < g < |a|
  {
    forall i :: 0 <= i < |a[g]| ==>
      && Targets(a[g][i].synapses) == Column(g - 1, |a[g - 1]|)
      && forall k :: 0 <= k < |a[g][i].synapses| ==> WeightMin <= a[g][i].synapses[k].weight <= WeightMax
  }

  ghost predicate Unlinked(a: Arena, g: nat)
    requires g < |a|
  {
    forall i :: 0 <= i < |a[g]| ==> a[g][i].synapses == []
  }

  /** Output, error and label as the neuron constructor sets them. */
  ghost predicate Blank(a: Arena, g: nat)
    requires g < |a|
  {
    forall i :: 0 <= i < |a[g]| ==>
      a[g][i].category == "" && a[g][i].output == OutputNeuronDefault && a[g][i].error == ErrorDefault
  }

  /** An arena with the group sizes of layout, blank neurons, the groups of
      linked fully connected to their predecessors and the others without
      synapses. */
  ghost predicate Staged(a: Arena, layout: seq<Primitive>, linked: set<nat>)
  {
    && |a| == |layout|
    && (forall g :: 0 <= g < |a| ==> |a[g]| == |layout[g]| && Blank(a, g))
    && (forall g :: 0 <= g < |a| && g in linked ==> 0 < g && FullyLinked(a, g))
    && (forall g :: 0 <= g < |a| && g !in linked ==> Unlinked(a, g))
  }

  /** The groups of the three holders, in arena order. */
  function Layout(input: Shape, hidden: Shape, output: Shape): seq<Primitive>
  {
    Groups(input) + Groups(hidden) + Groups(output)
  }

  /** The numbers lo, lo + 1, ..., hi - 1. */
  function Interval(lo: nat, hi: nat): (s: set<nat>)
    ensures forall g :: g in s <==> lo <= g < hi
    decreases hi - lo
  {
    if hi <= lo then {} else Interval(lo, hi - 1) + {hi - 1}
  }

  /** The groups the constructor connects when the hidden holder is a list
      of nh >= 1 groups after ni input groups: each hidden group after the
      first, the output layer when it is a single Primitive, and the first
      hidden group when the input is a single Primitive. */
  function WiredGroups(inSingle: bool, outSingle: bool, ni: nat, nh: nat): set<nat>
  {
    Interval(ni + 1, ni + nh)
    + (if outSingle then {ni + nh} else {})
    + (if inSingle then {ni} else {})
  }

  /** The groups the constructor connects for three created holders: none
      when the hidden holder holds a single Primitive. */
  function Linkage(input: Shape, hidden: Shape, output: Shape): set<nat>
  {
    if hidden.Single? then {}
    else WiredGroups(input.Single?, output.Single?, |Groups(input)|, |hidden.groups|)
  }

  lemma LayoutStaged(input: Shape, hidden: Shape, output: Shape)
    requires AllFresh(input) && AllFresh(hidden) && AllFresh(output)
    ensures Staged(Layout(input, hidden, output), Layout(input, hidden, output), {})
  {
    var a := Layout(input, hidden, output);
    var ni := |Groups(input)|;
    var nh := |Groups(hidden)|;
    forall g, i | 0 <= g < |a| && 0 <= i < |a[g]|
      ensures a[g][i] == Neurons.New()
    {
      if g < ni {
        assert a[g] == Groups(input)[g];
      } else if g < ni + nh {
        assert a[g] == Groups(hidden)[g - ni];
      } else {
        assert a[g] == Groups(output)[g - ni - nh];
      }
    }
  }

  /** Connecting an unlinked group to its predecessor links it fully. */
  lemma ConnectedStaged(a: Arena, b: Arena, layout: seq<Primitive>, linked: set<nat>, g: nat, draw: Draws, from: nat)
    requires Staged(a, layout, linked) && 0 < g < |a| && g !in linked
    requires |b| == |a| && forall h :: 0 <= h < |a| && h != g ==> b[h] == a[h]
    requires |b[g]| == |a[g]|
    requires forall i :: 0 <= i < |a[g]| ==>
      b[g][i] == a[g][i].(synapses := a[g][i].synapses + Links(g - 1, |a[g - 1]|, draw, from + i * |a[g - 1]|))
    ensures Staged(b, layout, linked + {g})
  {
    forall i | 0 <= i < |b[g]|
      ensures Targets(b[g][i].synapses) == Column(g - 1, |b[g - 1]|)
      ensures forall k :: 0 <= k < |b[g][i].synapses| ==> WeightMin <= b[g][i].synapses[k].weight <= WeightMax
    {
      assert a[g][i].synapses == [];
      LinksWeights(g - 1, |a[g - 1]|, draw, from + i * |a[g - 1]|);
      assert b[g][i].synapses == Links(g - 1, |a[g - 1]|, draw, from + i * |a[g - 1]|);
    }
    assert FullyLinked(b, g);
    forall h | 0 <= h < |b| && h != g
      ensures Blank(b, h) && (h in linked ==> 0 < h && FullyLinked(b, h)) && (h !in linked ==> Unlinked(b, h))
    {
      assert b[h] == a[h];
      if h in linked && h - 1 != g {
        assert b[h - 1] == a[h - 1];
      }
    }
  }

  /** A staged arena is wired feed-forward. */
  lemma StagedWired(a: Arena, layout: seq<Primitive>, linked: set<nat>)
    requires Staged(a, layout, linked)
    ensures Wired(a)
  {
    forall g, i | 0 <= g < |a| && 0 <= i < |a[g]|
      ensures Feeds(Targets(a[g][i].synapses), g, if g == 0 then 0 else |a[g - 1]|)
    {
      if g in linked {
        assert Targets(a[g][i].synapses) == Column(g - 1, |a[g - 1]|);
      } else {
        assert a[g][i].synapses == [];
      }
    }
  }

  /** Connects one unlinked group to the group before it. */
  method LinkGroup(a: Arena, ghost layout: seq<Primitive>, ghost linked: set<nat>, g: nat, draw: Draws, from: nat)
    returns (b: Arena, next: nat)
    requires Staged(a, layout, linked) && 0 < g < |a| && g !in linked
    ensures Staged(b, layout, linked + {g})
    ensures |b| == |a| && forall h :: 0 <= h < |a| && h != g ==> b[h] == a[h]
    ensures next >= from
  {
    b, next := Connect(a, g, g - 1, draw, from);
    ConnectedStaged(a, b, layout, linked, g, draw, from);
  }

  /** Connects hidden group ni + i + 1 to hidden group ni + i for each i
      below nh - 1, in order. */
  method WireChain(a: Arena, ghost layout: seq<Primitive>, ghost linked: set<nat>, ni: nat, nh: nat, draw: Draws, from: nat)
    returns (b: Arena, next: nat)
    requires Staged(a, layout, linked) && nh >= 1 && ni + nh <= |a|
    requires forall g :: ni < g < ni + nh ==> g !in linked
    ensures Staged(b, layout, linked + Interval(ni + 1, ni + nh))
    ensures next >= from
  {
    b, next := a, from;
    var i := 0;
    while i < nh - 1
      invariant 0 <= i <= nh - 1
      invariant next >= from
      invariant Staged(b, layout, linked + Interval(ni + 1, ni + i + 1))
    {
      b, next := LinkGroup(b, layout, linked + Interval(ni + 1, ni + i + 1), ni + i + 1, draw, next);
      assert linked + Interval(ni + 1, ni + i + 1) + {ni + i + 1} == linked + Interval(ni + 1, ni + i + 2);
      i := i + 1;
    }
  }

  /** The constructor's three wiring steps on an arena in layout order with
      ni input groups and a hidden list of nh >= 1 groups after them: the
      output Primitive to the last hidden group, the hidden chain, then the
      first hidden group to the input Primitive. */
  method Wire(layout: seq<Primitive>, inSingle: bool, outSingle: bool, ni: nat, nh: nat, draw: Draws, from: nat)
    returns (a: Arena, next: nat)
    requires Staged(layout, layout, {}) && nh >= 1 && ni + nh <= |layout|
    requires outSingle ==> ni + nh < |layout|
    requires inSingle ==> ni == 1
    ensures Staged(a, layout, WiredGroups(inSingle, outSingle, ni, nh))
    ensures Wired(a)
    ensures next >= from
  {
    a, next := layout, from;
    ghost var linked: set<nat> := {};
    if outSingle {
      a, next := LinkGroup(a, layout, linked, ni + nh, draw, next);
      linked := linked + {ni + nh};
    }
    a, next := WireChain(a, layout, linked, ni, nh, draw, next);
    linked := linked + Interval(ni + 1, ni + nh);
    if inSingle {
      a, next := LinkGroup(a, layout, linked, ni, draw, next);
      linked := linked + {ni};
    }
    assert linked == WiredGroups(inSingle, outSingle, ni, nh);
    StagedWired(a, layout, linked);
  }

  /** The image loop of education for one category: each decoded image is
      loaded into the input layer and, unless it has more pixels than the
      input layer has neurons, drives one forward pass, one backward pass
      and one weight update; an oversized image stops the run. */
  method TrainSamples(a: Arena, exp: Exp, h: nat, category: string, samples: seq<Sample>)
    returns (b: Arena, failure: Option<Error>)
    requires Trainable(a, h)
    ensures Progress(b, failure) == RunSamples(Progress(a, None), exp, h, category, samples)
  {
    ghost var goal := RunSamples(Progress(a, None), exp, h, category, samples);
    b := a;
    var s := 0;
    while s < |samples|
      invariant 0 <= s <= |samples|
      invariant Trainable(b, h)
      invariant RunSamples(Progress(b, None), exp, h, category, samples[s..]) == goal
    {
      assert samples[s..][1..] == samples[s + 1..];
      if samples[s].Some? {
        var input, failed := Inject(b[0], samples[s].value);
        OutputsKeepShape(b, b[0 := input], 0);
        WiredPreserved(b, b[0 := input]);
        b := b[0 := input];
        if failed.Some? {
          return b, failed;
        }
        b := Propagate(b, exp, h, category);
      }
      s := s + 1;
    }
    failure := None;
  }

  /** One epoch: the categories in iteration order. */
  method TrainCategories(a: Arena, exp: Exp, h: nat, buffer: seq<Folder>)
    returns (b: Arena, failure: Option<Error>)
    requires Trainable(a, h)
    ensures Progress(b, failure) == RunCategories(Progress(a, None), exp, h, buffer)
  {
    ghost var goal := RunCategories(Progress(a, None), exp, h, buffer);
    b := a;
    var c := 0;
    while c < |buffer|
      invariant 0 <= c <= |buffer|
      invariant Trainable(b, h)
      invariant RunCategories(Progress(b, None), exp, h, buffer[c..]) == goal
    {
      assert buffer[c..][1..] == buffer[c + 1..];
      b, failure := TrainSamples(b, exp, h, buffer[c].category, buffer[c].samples);
      if failure.Some? {
        return;
      }
      c := c + 1;
    }
    failure := None;
  }

  /** One epoch's result, followed by the remaining epochs, is the run of
      all of them; after a failure nothing more happens. */
  lemma EpochStep(before: Arena, b: Arena, failure: Option<Error>, exp: Exp, h: nat, buffer: seq<Folder>, epochs: nat)
    requires Trainable(before, h) && epochs > 0
    requires Progress(b, failure) == RunCategories(Progress(before, None), exp, h, buffer)
    ensures Trainable(b, h)
    ensures RunEpochs(Progress(before, None), exp, h, buffer, epochs)
         == (if failure.Some? then Progress(b, failure) else RunEpochs(Progress(b, None), exp, h, buffer, epochs - 1))
  {
  }

  /** The epoch loop of education. */
  method TrainEpochs(a: Arena, exp: Exp, h: nat, buffer: seq<Folder>, epochs: nat)
    returns (b: Arena, failure: Option<Error>)
    requires Trainable(a, h)
    ensures Progress(b, failure) == RunEpochs(Progress(a, None), exp, h, buffer, epochs)
  {
    ghost var goal := RunEpochs(Progress(a, None), exp, h, buffer, epochs);
    b := a;
    var e := 0;
    while e < epochs
      invariant 0 <= e <= epochs
      invariant Trainable(b, h)
      invariant RunEpochs(Progress(b, None), exp, h, buffer, epochs - e) == goal
    {
      ghost var before := b;
      b, failure := TrainCategories(b, exp, h, buffer);
      EpochStep(before, b, failure, exp, h, buffer, epochs - e);
      if failure.Some? {
        return;
      }
      e := e + 1;
    }
    failure := None;
  }

  class Network {
    var arena: Arena
    var inputShape: Option<Kind>
    var hiddenShape: Option<Kind>
    var outputShape: Option<Kind>
    var dataset: string
    var categories: seq<string>
    var epoch: Option<nat>

    ghost predicate Valid()
      reads this
    {
      |arena| == Count(inputShape) + Count(hiddenShape) + Count(outputShape) && Wired(arena)
    }

    /** The combination education works with: a single input Primitive, a
        non-empty hidden list and a single output Primitive. */
    ghost predicate Canonical()
      reads this
    {
      && inputShape == Some(SingleKind)
      && hiddenShape.Some? && hiddenShape.value.MultiKind? && hiddenShape.value.count >= 1
      && outputShape == Some(SingleKind)
    }

    function Hidden(): nat
      reads this
    {
      Count(hiddenShape)
    }

    /** The checks of education that come before any change all pass. */
    predicate Ready(datasetExists: bool)
      reads this
    {
      dataset != "" && datasetExists && epoch.Some? && categories != []
    }

    /** A default network: no layers, dataset "", the category list holding
        one empty name, and no epoch. */
    constructor()
      ensures Valid()
      ensures arena == [] && inputShape == None && hiddenShape == None && outputShape == None
      ensures dataset == "" && categories == [""] && epoch == None
    {
      arena := [];
      inputShape := None;
      hiddenShape := None;
      outputShape := None;
      dataset := "";
      categories := [""];
      epoch := None;
    }

    /** Builds a network from three holders: fails with NotInitialize when
        a holder was never created or the hidden list is empty; otherwise
        keeps their groups in one arena and connects the output Primitive to
        the last hidden group, each hidden group to the one before it, and
        the first hidden group to the input Primitive, in that order, drawing
        the weights from draw. */
    static method FromLayers(input: PrimitiveLayer, hidden: PrimitiveLayer, output: PrimitiveLayer, draw: Draws, from: nat)
      returns (r: Result<Network, Error>, next: nat)
      requires input.kind == InputLayer && hidden.kind == HiddenLayer && output.kind == OutputLayer
      requires input.Valid() && hidden.Valid() && output.Valid()
      ensures r.Err? <==> input.layers.None? || hidden.layers.None? || output.layers.None? ||
                          hidden.layers == Some(Multi([]))
      ensures r.Err? ==> r.error == NotInitialize
      ensures r.Ok? ==> fresh(r.value) && r.value.Valid()
      ensures r.Ok? ==> r.value.dataset == "" && r.value.categories == [""] && r.value.epoch == None
      ensures r.Ok? ==>
        && r.value.inputShape == Some(KindOf(input.layers.value))
        && r.value.hiddenShape == Some(KindOf(hidden.layers.value))
        && r.value.outputShape == Some(KindOf(output.layers.value))
      ensures r.Ok? ==>
        var layout := Layout(input.layers.value, hidden.layers.value, output.layers.value);
        Staged(r.value.arena, layout, Linkage(input.layers.value, hidden.layers.value, output.layers.value))
    {
      next := from;
      if input.layers.None? || hidden.layers.None? || output.layers.None? {
        return Err(NotInitialize), next;
      }
      var inS, hidS, outS := input.layers.value, hidden.layers.value, output.layers.value;
      if hidS == Multi([]) {
        return Err(NotInitialize), next;
      }
      var layout := Layout(inS, hidS, outS);
      LayoutStaged(inS, hidS, outS);
      var a := layout;
      if hidS.Multi? {
        a, next := Wire(layout, inS.Single?, outS.Single?, |Groups(inS)|, |hidS.groups|, draw, from);
      } else {
        StagedWired(a, layout, {});
      }
      var n := new Network();
      n.arena := a;
      n.inputShape, n.hiddenShape, n.outputShape := Some(KindOf(inS)), Some(KindOf(hidS)), Some(KindOf(outS));
      return Ok(n), next;
    }

    method SetDataset(path: string)
      requires Valid()
      modifies this
      ensures Valid() && dataset == path
      ensures arena == old(arena) && categories == old(categories) && epoch == old(epoch)
      ensures inputShape == old(inputShape) && hiddenShape == old(hiddenShape) && outputShape == old(outputShape)
    {
      dataset := path;
    }

    /** Replaces the category list with an exact copy of the given one. */
    method SetCategories(names: seq<string>)
      requires Valid()
      modifies this
      ensures Valid() && categories == names
      ensures arena == old(arena) && dataset == old(dataset) && epoch == old(epoch)
      ensures inputShape == old(inputShape) && hiddenShape == old(hiddenShape) && outputShape == old(outputShape)
    {
      categories := names;
    }

    method SetEpoch(count: nat)
      requires Valid()
      modifies this
      ensures Valid() && epoch == Some(count)
      ensures arena == old(arena) && dataset == old(dataset) && categories == old(categories)
      ensures inputShape == old(inputShape) && hiddenShape == old(hiddenShape) && outputShape == old(outputShape)
    {
      epoch := Some(count);
    }

    /** Trains the network on a dataset.  datasetExists says whether the
        dataset folder exists; buffer holds the category folders found in it,
        in iteration order, with their images decoded.  Fails before any
        change when the dataset path is empty or missing (FolderNotFound),
        when the epoch is unset or the category list empty (NotInitialize),
        or when the number of category folders differs from the size of the
        output layer (OutOfRange).  Otherwise labels output neuron i with the
        i-th category and trains epoch by epoch; an image with more pixels
        than the input layer has neurons aborts the run with OutOfRange,
        leaving the network as it was at that point.  The state described is
        the one after the training loops: the source then runs a second,
        forward-only loop over the same images, which rewrites the outputs
        of the input, hidden and output layers but no weight, error or
        label; that loop is not part of this method. */
    method Education(datasetExists: bool, buffer: seq<Folder>, exp: Exp) returns (r: Result<bool, Error>)
      requires Valid()
      requires Ready(datasetExists) ==> Canonical()
      modifies this
      ensures Valid()
      ensures dataset == old(dataset) && categories == old(categories) && epoch == old(epoch)
      ensures inputShape == old(inputShape) && hiddenShape == old(hiddenShape) && outputShape == old(outputShape)
      ensures dataset == "" || !datasetExists ==> r == Err(FolderNotFound) && arena == old(arena)
      ensures dataset != "" && datasetExists && (epoch.None? || categories == []) ==>
        r == Err(NotInitialize) && arena == old(arena)
      ensures Ready(datasetExists) && |buffer| != |old(arena)[Hidden() + 1]| ==>
        r == Err(OutOfRange) && arena == old(arena)
      ensures Ready(datasetExists) && |buffer| == |old(arena)[Hidden() + 1]| ==>
        Trainable(old(arena), Hidden()) &&
        var run := Educated(old(arena), exp, Hidden(), buffer, epoch.value);
        arena == run.arena && r == (if run.failure.Some? then Err(run.failure.value) else Ok(true))
    {
      if dataset == "" {
        return Err(FolderNotFound);
      }
      if !datasetExists {
        return Err(FolderNotFound);
      }
      if epoch.None? || categories == [] {
        return Err(NotInitialize);
      }
      var h := Hidden();
      assert Trainable(arena, h);
      if |buffer| != |arena[h + 1]| {
        return Err(OutOfRange);
      }
      var out := AssignLabels(arena[h + 1], buffer);
      OutputsKeepShape(arena, arena[h + 1 := out], h + 1);
      WiredPreserved(arena, arena[h + 1 := out]);
      var trained, failure := TrainEpochs(arena[h + 1 := out], exp, h, buffer, epoch.value);
      arena := trained;
      if failure.Some? {
        return Err(failure.value);
      }
      return Ok(true);
    }
  }
}
