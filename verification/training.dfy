/** The training part of Network::education (Network.cpp): the labels of the
    output layer, the loading of one image into the input layer, and the
    fixed forward / backward / weight-update pass run for every decoded
    image of every category, epoch after epoch.

    The arena is in the layout education works on: group 0 is the input
    layer, groups 1..h the hidden groups front to back, group h + 1 the
    output layer.  The functions here say what a run computes; the methods
    do it with the source's loops and are proved to compute the same. */
module Training {
  import opened Wrappers
  import opened Constants
  import opened Activation
  import opened Neurons
  import opened Primitives

  /** One image of the dataset: its pixel values in row-major order, scaled
      to [0, 1], or none when it could not be decoded. */
  type Sample = Option<seq<real>>

  /** One category folder of the dataset, with its images in order. */
  datatype Folder = Folder(category: string, samples: seq<Sample>)

  /** State of a training run: the arena, and the error that aborted the
      run, if one did. */
  datatype Progress = Progress(arena: Arena, failure: Option<Error>)

  /** The layout education works on, with at least one hidden group. */
  ghost predicate Trainable(a: Arena, h: nat)
  {
    h >= 1 && |a| == h + 2 && Wired(a)
  }

  /** Every neuron keeps its label. */
  ghost predicate SameLabels(a: Arena, b: Arena)
    requires SameShape(a, b)
  {
    forall g, i :: 0 <= g < |a| && 0 <= i < |a[g]| ==> b[g][i].category == a[g][i].category
  }

  lemma OutputsKeepShape(a: Arena, b: Arena, g: nat)
    requires g < |a| && |b| == |a| && |b[g]| == |a[g]|
    requires forall h :: 0 <= h < |a| && h != g ==> b[h] == a[h]
    requires forall i :: 0 <= i < |a[g]| ==> b[g][i].synapses == a[g][i].synapses
    ensures SameShape(a, b)
  {
    forall h, i | 0 <= h < |a| && 0 <= i < |a[h]|
      ensures Targets(a[h][i].synapses) == Targets(b[h][i].synapses)
    {
      assert a[h][i].synapses == b[h][i].synapses;
    }
  }

  // ----- the pass --------------------------------------------------------

  /** Groups 1..k calculated front to back. */
  function Forward(a: Arena, exp: Exp, k: nat): (r: Arena)
    requires Wired(a) && k < |a|
    ensures Wired(r) && SameShape(a, r)
    ensures forall g :: 0 <= g < |a| && (g == 0 || g > k) ==> r[g] == a[g]
    ensures forall g, i :: 0 < g <= k && 0 <= i < |a[g]| ==>
      0.0 < r[g][i].output < 1.0 && r[g][i] == a[g][i].(output := r[g][i].output)
    decreases k
  {
    if k == 0 then a
    else
      var b := Forward(a, exp, k - 1);
      WiredGroup(b, k);
      var r := Calculated(b, exp, k);
      SameShapeTransitive(a, b, r);
      WiredPreserved(b, r);
      r
  }

  /** Groups k down to 1, each taking its errors from the group above it. */
  function Backward(a: Arena, k: nat): (r: Arena)
    requires k + 1 < |a|
    ensures SameShape(a, r)
    ensures forall g :: 0 <= g < |a| && (g == 0 || g > k) ==> r[g] == a[g]
    ensures forall g, i :: 0 < g <= k && 0 <= i < |a[g]| ==> r[g][i] == a[g][i].(error := r[g][i].error)
    decreases k
  {
    if k == 0 then a
    else
      var b := BackPropagated(a, k, k + 1);
      var r := Backward(b, k - 1);
      SameShapeTransitive(a, b, r);
      r
  }

  /** Groups 1..k with their weights updated, front to back. */
  function Retrain(a: Arena, exp: Exp, k: nat): (r: Arena)
    requires Wired(a) && k < |a|
    ensures Wired(r) && SameShape(a, r)
    ensures forall g :: 0 <= g < |a| && (g == 0 || g > k) ==> r[g] == a[g]
    ensures forall g, i :: 0 < g <= k && 0 <= i < |a[g]| ==> r[g][i] == a[g][i].(synapses := r[g][i].synapses)
    decreases k
  {
    if k == 0 then a
    else
      var b := Retrain(a, exp, k - 1);
      WiredGroup(b, k);
      var r := Retrained(b, exp, k);
      SameShapeTransitive(a, b, r);
      WiredPreserved(b, r);
      r
  }

  /** The output layer's errors against the image's category. */
  function Judged(a: Arena, h: nat, category: string): (r: Arena)
    requires h + 1 < |a|
    ensures SameShape(a, r)
    ensures forall g :: 0 <= g < |a| && g != h + 1 ==> r[g] == a[g]
  {
    var r := a[h + 1 := Categorized(a[h + 1], category)];
    OutputsKeepShape(a, r, h + 1);
    r
  }

  /** One training pass over the current input: calculate the hidden groups
      front to back and then the output layer; compute the output errors
      against the category, then the errors of the last hidden group from
      the output layer and of each earlier hidden group from the one after
      it; update the weights of the hidden groups front to back and then of
      the output layer.  The input layer and every label are left alone. */
  function Pass(a: Arena, exp: Exp, h: nat, category: string): (r: Arena)
    requires Trainable(a, h)
    ensures Trainable(r, h) && SameShape(a, r)
    ensures r[0] == a[0]
    ensures SameLabels(a, r)
  {
    var f := Forward(a, exp, h + 1);
    var l := Judged(f, h, category);
    WiredPreserved(f, l);
    var b := Backward(l, h);
    WiredPreserved(l, b);
    var r := Retrain(b, exp, h + 1);
    SameShapeTransitive(a, f, l);
    SameShapeTransitive(a, l, b);
    SameShapeTransitive(a, b, r);
    r
  }

  /** Runs one pass with the source's loops. */
  method Propagate(a: Arena, exp: Exp, h: nat, category: string) returns (b: Arena)
    requires Trainable(a, h)
    ensures b == Pass(a, exp, h, category)
  {
    // Forward: hidden groups front to back, then the output layer.
    b := a;
    var g := 1;
    while g <= h + 1
      invariant 1 <= g <= h + 2
      invariant b == Forward(a, exp, g - 1)
    {
      WiredGroup(b, g);
      b := Calculate(b, exp, g);
      g := g + 1;
    }
    // Backward: the output layer against the category, the last hidden
    // group from the output layer, then group j from group j + 1.
    var out := UpdateCategories(b[h + 1], category);
    b := b[h + 1 := out];
    ghost var judged := b;
    assert judged == Judged(Forward(a, exp, h + 1), h, category);
    b := Backpropagate(b, h, h + 1);
    var j := h - 1;
    while j != 0
      invariant 0 <= j < h && |b| == h + 2
      invariant Backward(b, j) == Backward(judged, h)
    {
      b := Backpropagate(b, j, j + 1);
      j := j - 1;
    }
    // Weights: hidden groups front to back, then the output layer.
    ghost var back := b;
    WiredPreserved(Forward(a, exp, h + 1), judged);
    WiredPreserved(judged, back);
    g := 1;
    while g <= h + 1
      invariant 1 <= g <= h + 2
      invariant b == Retrain(back, exp, g - 1)
    {
      WiredGroup(b, g);
      b := UpdateWeights(b, exp, g);
      g := g + 1;
    }
  }

  // ----- labels --------------------------------------------------------------

  /** Output neuron i labelled with the i-th category. */
  function Labelled(p: Primitive, buffer: seq<Folder>): (q: Primitive)
    requires |buffer| == |p|
    ensures |q| == |p|
    ensures forall i :: 0 <= i < |p| ==> q[i] == p[i].(category := buffer[i].category)
  {
    seq(|p|, i requires 0 <= i < |p| => p[i].(category := buffer[i].category))
  }

  /** Labels the output layer with setCategory, position by position. */
  method AssignLabels(p: Primitive, buffer: seq<Folder>) returns (q: Primitive)
    requires |buffer| == |p|
    ensures q == Labelled(p, buffer)
  {
    q := p;
    var i := 0;
    while i < |buffer|
      invariant 0 <= i <= |buffer| && |q| == |p|
      invariant forall j :: 0 <= j < i ==> q[j] == p[j].(category := buffer[j].category)
      invariant forall j :: i <= j < |p| ==> q[j] == p[j]
    {
      var r := SetCategory(q, i, buffer[i].category);
      q := r.value;
      i := i + 1;
    }
    assert q == Labelled(p, buffer);
  }

  /** With the output layer labelled by distinct, non-empty category names,
      an image of the k-th category targets output neuron k alone: its
      error is 1 - output, every other neuron's is 0 - output. */
  lemma OneHotTarget(p: Primitive, buffer: seq<Folder>, k: nat)
    requires |buffer| == |p| && k < |buffer|
    requires forall i, j :: 0 <= i < j < |buffer| ==> buffer[i].category != buffer[j].category
    requires forall i :: 0 <= i < |buffer| ==> buffer[i].category != ""
    ensures Categorized(Labelled(p, buffer), buffer[k].category)[k].error == 1.0 - p[k].output
    ensures forall i :: 0 <= i < |p| && i != k ==>
      Categorized(Labelled(p, buffer), buffer[k].category)[i].error == 0.0 - p[i].output
  {
    var q := Labelled(p, buffer);
    forall i | 0 <= i < |p| && i != k
      ensures Categorized(q, buffer[k].category)[i].error == 0.0 - p[i].output
    {
      assert q[i].category == buffer[i].category != buffer[k].category by {
        if i < k {
          assert buffer[i].category != buffer[k].category;
        } else {
          assert buffer[k].category != buffer[i].category;
        }
      }
    }
  }

  // ----- one image -----------------------------------------------------------

  /** The input layer with its first outputs replaced by the given values. */
  function Overwrite(p: Primitive, pixels: seq<real>): (q: Primitive)
    ensures |q| == |p|
    ensures forall i :: 0 <= i < |p| && i < |pixels| ==> q[i] == p[i].(output := pixels[i])
    ensures forall i :: |pixels| <= i < |p| ==> q[i] == p[i]
  {
    seq(|p|, i requires 0 <= i < |p| => if i < |pixels| then p[i].(output := pixels[i]) else p[i])
  }

  /** Loading an image: one set per pixel, in order.  An image with more
      pixels than the input layer has neurons fills the whole layer and then
      fails with out_of_range. */
  function Load(p: Primitive, pixels: seq<real>): (Primitive, Option<Error>)
  {
    (Overwrite(p, pixels), if |pixels| > |p| then Some(OutOfRange) else None)
  }

  /** Sets the input outputs pixel by pixel and stops at the first failing
      set. */
  method Inject(p: Primitive, pixels: seq<real>) returns (q: Primitive, failure: Option<Error>)
    ensures (q, failure) == Load(p, pixels)
  {
    q := p;
    var i := 0;
    while i < |pixels|
      invariant 0 <= i <= |pixels| && i <= |p|
      invariant q == Overwrite(p, pixels[..i])
    {
      var r := Set(q, i, pixels[i]);
      if r.Err? {
        assert pixels[..i] == pixels[..|p|];
        assert Overwrite(p, pixels[..|p|]) == Overwrite(p, pixels);
        return q, Some(r.error);
      }
      q := r.value;
      assert q == Overwrite(p, pixels[..i + 1]);
      i := i + 1;
    }
    assert pixels[..i] == pixels;
    failure := None;
  }

  /** One image of a category: nothing after a failure or for an image that
      could not be decoded; otherwise load it, and run the pass unless the
      load failed. */
  function Learn(pr: Progress, exp: Exp, h: nat, category: string, s: Sample): (r: Progress)
    requires Trainable(pr.arena, h)
    ensures Trainable(r.arena, h) && SameShape(pr.arena, r.arena) && SameLabels(pr.arena, r.arena)
    ensures pr.failure.Some? || s.None? ==> r == pr
    ensures pr.failure.None? && s.Some? ==> (r.failure.Some? <==> |s.value| > |pr.arena[0]|)
    ensures pr.failure.None? && r.failure.Some? ==> r.failure.value == OutOfRange
  {
    if pr.failure.Some? || s.None? then pr
    else
      var (input, failure) := Load(pr.arena[0], s.value);
      var a := pr.arena[0 := input];
      OutputsKeepShape(pr.arena, a, 0);
      WiredPreserved(pr.arena, a);
      if failure.Some? then Progress(a, failure)
      else
        var r := Pass(a, exp, h, category);
        SameShapeTransitive(pr.arena, a, r);
        Progress(r, None)
  }

  /** The images of one category, in order. */
  function RunSamples(pr: Progress, exp: Exp, h: nat, category: string, samples: seq<Sample>): (r: Progress)
    requires Trainable(pr.arena, h)
    ensures Trainable(r.arena, h) && SameShape(pr.arena, r.arena) && SameLabels(pr.arena, r.arena)
    ensures pr.failure.Some? ==> r == pr
    ensures pr.failure.None? && r.failure.Some? ==> r.failure.value == OutOfRange
    decreases |samples|
  {
    if samples == [] then pr
    else
      var next := Learn(pr, exp, h, category, samples[0]);
      var r := RunSamples(next, exp, h, category, samples[1..]);
      SameShapeTransitive(pr.arena, next.arena, r.arena);
      r
  }

  /** All categories of the dataset, in iteration order. */
  function RunCategories(pr: Progress, exp: Exp, h: nat, buffer: seq<Folder>): (r: Progress)
    requires Trainable(pr.arena, h)
    ensures Trainable(r.arena, h) && SameShape(pr.arena, r.arena) && SameLabels(pr.arena, r.arena)
    ensures pr.failure.Some? ==> r == pr
    ensures pr.failure.None? && r.failure.Some? ==> r.failure.value == OutOfRange
    decreases |buffer|
  {
    if buffer == [] then pr
    else
      var next := RunSamples(pr, exp, h, buffer[0].category, buffer[0].samples);
      var r := RunCategories(next, exp, h, buffer[1..]);
      SameShapeTransitive(pr.arena, next.arena, r.arena);
      r
  }

  /** The given number of epochs over the whole dataset. */
  function RunEpochs(pr: Progress, exp: Exp, h: nat, buffer: seq<Folder>, epochs: nat): (r: Progress)
    requires Trainable(pr.arena, h)
    ensures Trainable(r.arena, h) && SameShape(pr.arena, r.arena) && SameLabels(pr.arena, r.arena)
    ensures pr.failure.Some? || epochs == 0 ==> r == pr
    ensures pr.failure.None? && r.failure.Some? ==> r.failure.value == OutOfRange
    decreases epochs
  {
    if epochs == 0 then pr
    else
      var next := RunCategories(pr, exp, h, buffer);
      var r := RunEpochs(next, exp, h, buffer, epochs - 1);
      SameShapeTransitive(pr.arena, next.arena, r.arena);
      r
  }

  /** A category whose images all failed to decode changes nothing. */
  lemma {:induction false} UndecodableSkipped(pr: Progress, exp: Exp, h: nat, category: string, samples: seq<Sample>)
    requires Trainable(pr.arena, h)
    requires forall i :: 0 <= i < |samples| ==> samples[i].None?
    ensures RunSamples(pr, exp, h, category, samples) == pr
    decreases |samples|
  {
    if samples != [] {
      UndecodableSkipped(pr, exp, h, category, samples[1..]);
    }
  }

  /** Images that fit the input layer never abort a run. */
  lemma {:induction false} FittingImagesNeverFail(pr: Progress, exp: Exp, h: nat, category: string, samples: seq<Sample>)
    requires Trainable(pr.arena, h) && pr.failure.None?
    requires forall i :: 0 <= i < |samples| && samples[i].Some? ==> |samples[i].value| <= |pr.arena[0]|
    ensures RunSamples(pr, exp, h, category, samples).failure.None?
    decreases |samples|
  {
    if samples != [] {
      var next := Learn(pr, exp, h, category, samples[0]);
      FittingImagesNeverFail(next, exp, h, category, samples[1..]);
    }
  }

  /** What education does to an arena in its layout once its checks pass:
      label output neuron i with the i-th category, then run the epochs.
      The labels stay in place whatever the run does, and no epoch leaves
      the network as labelled. */
  function Educated(a: Arena, exp: Exp, h: nat, buffer: seq<Folder>, epochs: nat): (r: Progress)
    requires Trainable(a, h) && |buffer| == |a[h + 1]|
    ensures Trainable(r.arena, h) && SameShape(a, r.arena)
    ensures r.failure.Some? ==> r.failure.value == OutOfRange
    ensures forall i :: 0 <= i < |buffer| ==> r.arena[h + 1][i].category == buffer[i].category
    ensures epochs == 0 ==> r == Progress(a[h + 1 := Labelled(a[h + 1], buffer)], None)
  {
    var l := a[h + 1 := Labelled(a[h + 1], buffer)];
    OutputsKeepShape(a, l, h + 1);
    WiredPreserved(a, l);
    var r := RunEpochs(Progress(l, None), exp, h, buffer, epochs);
    SameShapeTransitive(a, l, r.arena);
    r
  }
}
