# network — a verified model of the feed-forward network engine

This project models the core of `network`, a small C++ engine for
feed-forward neural networks trained on image folders. It covers:

- the neuron, with its outgoing synapses, label, output and error;
- the layer of neurons (`Primitive`);
- the three layer holders (`InputLayer`, `HiddenLayer`, `OutputLayer`);
- the `Network`, which wires the holders together and trains them;
- the activation helpers;
- the later revision of the neuron, which adds an id, a pluggable
  activation function and null targets.

The project proves properties of each of these.

The model works as follows.

- **Neurons** are values. A synapse names its target neuron by position,
  `Ref(group, index)`, in an *arena*: a sequence of groups, each a
  sequence of neurons.
  Neuron equality in both revisions (Neuron.hpp:144-147, Neuron.cpp:86-89)
  compares addresses. `Neurons.Identical` models it as equality of
  positions, for the first revision's neurons and the revised cells alike.
- **Layers.** A layer is one group of the arena. The network keeps the
  groups of its input holder, then those of its hidden holder, then those
  of its output holder, in one arena.
- **Neuron and layer operations** that change neurons are written as
  methods with the source's loops. They take the arena and return the
  rewritten neuron or arena. Each is proved equal to a specification
  function, and the properties are proved about that function.
- **Classes.** `PrimitiveLayer` and `Network`, whose fields the source
  updates in place, are classes.
- **Doubles** are modelled as reals.
- **exp** is any strictly positive function passed in as `exp: Exp`. Where
  a monotonicity property needs it, exp is also assumed increasing.
- **Weights at construction** come from `rand()`. In the model they are a
  stream `draw: Draws` of values in [-0.5, 0.5], consumed in call order
  from a counter.
- **Education.** `Network.Education` receives the category folders
  already found in the dataset, in iteration order, and each image
  already decoded (`Sample`: scaled pixels, or none when decoding failed).
  A flag says whether the dataset folder exists.

Proved, among other things:

- `createLink` appends. Looking up a weight after linking gives back the
  first link to that target.
- The layer operations change only the field they are meant to change, in
  only the group they are meant to change.
- `connect` gives every neuron exactly one synapse toward each neuron of
  the source layer, in order, with a weight in [-0.5, 0.5].
- The constructor builds a feed-forward arena: every synapse of group g
  points into group g - 1. It fails with `NotInitialize` exactly when a
  holder is empty or the hidden list is empty.
- A training pass keeps that wiring, the input layer and every label.
- Once its checks pass, education fails only on an image larger than the
  input layer, and then with `OutOfRange`. Under the corrected bounds check
  that includes an image exactly one pixel too large, which the source lets
  through (see Findings). It labels output neuron i with the i-th category.
- When exp is increasing and the target's output is not negative, a
  weight moves in the direction of its neuron's error.
- The bounds check of `set`/`setCategory` as written lets one position
  too many through. See Findings.

`create_link` (Neuron.hpp:59-63) appends to a vector, so a second link
to the same target is kept as a duplicate. `Neurons.CreateLink` and `Neurons.LinkThenGetWeight`
model the append, and the lookup answers with the first of them.

Files: `wrappers.dfy` (Option, Result), `constants.dfy`, `activation.dfy`,
`neurons.dfy`, `revised_neurons.dfy`, `primitives.dfy`, `layers.dfy`,
`training.dfy`, `network.dfy`.

## Model

| member | source | states |
|---|---|---|
| Activation.Differential | network_core/include/network_core/utility/ActivationFunctions.hpp:14-17 | the result times ESP (0.01) is f(x + ESP) - f(x): the forward difference quotient |
| Activation.DifferentialOfConstant | network_core/include/network_core/utility/ActivationFunctions.hpp:14-17 | the difference quotient of a constant function is 0 |
| Activation.DifferentialOfAffine | network_core/include/network_core/utility/ActivationFunctions.hpp:14-17 | on an affine function the quotient is exactly its slope |
| Activation.DifferentialOfMonotone | network_core/include/network_core/utility/ActivationFunctions.hpp:14-17 | the quotient of a non-decreasing function is never negative |
| Activation.Sigmoid | network_core/include/network_core/utility/ActivationFunctions.hpp:19-22 | 1 / (1 + exp(-x)) lies strictly between 0 and 1 for every x |
| Activation.SigmoidMonotone | network_core/include/network_core/utility/ActivationFunctions.hpp:19-22 | with an increasing exp, the sigmoid is non-decreasing |
| Activation.SingleJump | network_core/include/network_core/utility/ActivationFunctions.hpp:24-27 | the step is 0 or 1, and 1 exactly when x >= 10 |
| Activation.SingleJumpMonotone | network_core/include/network_core/utility/ActivationFunctions.hpp:24-27 | the step never decreases as x grows |
| Neurons.New | network_core/include/network_core/primitives/Neuron.hpp:53-56 | a new neuron has no synapses, an empty label, output 0.5 and error 0.5 |
| Neurons.Size | network_core/include/network_core/primitives/Neuron.hpp:31 | the length of the synapse list, duplicates included; CreateLink's contract makes it grow by exactly one per link |
| Neurons.CreateLink | network_core/include/network_core/primitives/Neuron.hpp:59-63 | size grows by one; old synapses are kept as a prefix; the new synapse is last; other fields are untouched (duplicates allowed) |
| Neurons.LinkThenGetWeight | network_core/include/network_core/primitives/Neuron.hpp:59-63 | after linking t with w, looking up t gives w if t was unlinked, else the earlier first weight |
| Neurons.Transfer | network_core/include/network_core/primitives/Neuron.hpp:90-99 | the output becomes the sigmoid of the sum of target output times weight, a value in (0, 1); nothing else changes |
| Neurons.UpdateCategory | network_core/include/network_core/primitives/Neuron.hpp:101-109 | an unlabelled neuron is unchanged; for a labelled one, error + output is 1 iff the label matches, and 0 otherwise |
| Neurons.UpdateError | network_core/include/network_core/primitives/Neuron.hpp:111-114 | the error becomes the given value; nothing else changes |
| Neurons.UpdateWeight | network_core/include/network_core/primitives/Neuron.hpp:116-123 | the loop moves each weight by 0.1 × error × target output × sigmoid difference quotient at the own output |
| Neurons.Trained | network_core/include/network_core/primitives/Neuron.hpp:116-123 | same number of synapses, same targets, each weight plus its step; label, output and error are kept |
| Neurons.ZeroErrorKeepsWeights | network_core/include/network_core/primitives/Neuron.hpp:116-123 | a neuron with zero error keeps every weight |
| Neurons.TrainedFollowsError | network_core/include/network_core/primitives/Neuron.hpp:116-123 | with an increasing exp and a non-negative target output, a weight rises with a positive error and falls with a negative one |
| Neurons.FindTarget | network_core/include/network_core/primitives/Neuron.hpp:133-135 | the position of the first synapse toward t, or the length when none points at t |
| Neurons.GetWeight | network_core/include/network_core/primitives/Neuron.hpp:125-142 | none for a null argument; some iff a synapse points at t, and then the weight of the first such synapse |
| Neurons.Identical | network_core/include/network_core/primitives/Neuron.hpp:144-147 | equality holds exactly for the same arena position |
| Neurons.EqualityIsIdentity | network_core/include/network_core/primitives/Neuron.hpp:144-147 | two neurons with equal contents at different positions are not equal |
| RevisedNeurons.Created | network_core/src/Neuron.cpp:4 | the constructor keeps the id (any signed integer) and the activation given, with no synapses and default output and error |
| RevisedNeurons.ComputeOutputValue | network_core/src/Neuron.cpp:31-48 | output = activation(sum over links with a target); unchanged when no activation is set |
| RevisedNeurons.Computed | network_core/src/Neuron.cpp:31-48 | only the output may change, and nothing changes without an activation |
| RevisedNeurons.NonNull | network_core/src/Neuron.cpp:38 | the links with a target, each one drawn from the original list |
| RevisedNeurons.NonNullKeepsOrder | network_core/src/Neuron.cpp:35-41 | filtering keeps a single link exactly when it has a target, and distributes over concatenation, so the relative order is kept |
| RevisedNeurons.NonNullKept | network_core/src/Neuron.cpp:35-41 | every link with a target survives the filter |
| RevisedNeurons.NullLinksContributeNothing | network_core/src/Neuron.cpp:33-43 | the guarded sum equals the sum over the links that have a target |
| RevisedNeurons.ComputeWeights | network_core/src/Neuron.cpp:50-60 | the loop computes the adjusted neuron |
| RevisedNeurons.Adjusted | network_core/src/Neuron.cpp:50-60 | with an activation, each link with a target moves by its step; null links, and all links without an activation, keep their weight; targets and other fields are kept |
| RevisedNeurons.ZeroErrorKeepsLinks | network_core/src/Neuron.cpp:50-60 | with zero error no weight changes |
| RevisedNeurons.GetWeight | network_core/src/Neuron.cpp:62-79 | none for a null argument; some iff a link points at t, and then the first such link's weight |
| RevisedNeurons.FirstWeight | network_core/src/Neuron.cpp:70-76 | a search from i finds the first link toward t, when one exists |
| RevisedNeurons.SetActivationFunction | network_core/src/Neuron.cpp:81-84 | the activation is replaced, possibly by none; nothing else changes |
| RevisedNeurons.GetId | network_core/src/Neuron.cpp:91-94 | returns the stored id; with IdIsPermanent, the id given at construction |
| RevisedNeurons.IdIsPermanent | network_core/src/Neuron.cpp:91-94 | computeOutputValue, computeWeights and setActivationFunction keep the id of any neuron, so after any sequence of them getId returns the id given at construction |
| Primitives.Fresh | network_core/include/network_core/primitives/Primitive.hpp:46-52 | a new layer holds `size` new neurons |
| Primitives.Connect | network_core/include/network_core/primitives/Primitive.hpp:55-67 | each neuron of the group, in order, gains one synapse per source neuron, in order, weighted by consecutive draws; the counter advances by the product of the sizes; the other groups are untouched |
| Primitives.LinksWeights | network_core/include/network_core/primitives/Primitive.hpp:57-64 | the links of one neuron point at source neurons 0.. in order, with weights in [-0.5, 0.5] |
| Primitives.SetAsWritten | network_core/include/network_core/primitives/Primitive.hpp:76-85 | the check as written throws iff pos > size, and lets pos == size through past the end |
| Primitives.SetCategoryAsWritten | network_core/include/network_core/primitives/Primitive.hpp:139-149 | the same check as written for labels |
| Primitives.OnePastTheEndGetsThrough | network_core/include/network_core/primitives/Primitive.hpp:76-85 | for every layer, position size passes the check as written, while the corrected check rejects it with OutOfRange |
| Primitives.Set | network_core/include/network_core/primitives/Primitive.hpp:76-85 | error iff pos >= size, and then OutOfRange; otherwise only the output at pos changes, to the value |
| Primitives.SetCategory | network_core/include/network_core/primitives/Primitive.hpp:139-149 | error iff pos >= size, and then OutOfRange; otherwise only the label at pos changes |
| Primitives.CorrectedAgreesAsWritten | network_core/include/network_core/primitives/Primitive.hpp:76-85 | away from pos == size, the corrected and as-written writes agree |
| Primitives.Categorized | network_core/include/network_core/primitives/Primitive.hpp:95-101 | every neuron gets update(category), position by position |
| Primitives.UpdateCategories | network_core/include/network_core/primitives/Primitive.hpp:95-101 | the loop computes the categorized layer |
| Primitives.Calculated | network_core/include/network_core/primitives/Primitive.hpp:87-93 | only the outputs of group g change, each to a value in (0, 1); shape is kept |
| Primitives.Calculate | network_core/include/network_core/primitives/Primitive.hpp:87-93 | the loop changes only the outputs of group g, to values in (0, 1), and gives the calculated layer when g has no self-links |
| Primitives.BackSumUnlinked | network_core/include/network_core/primitives/Primitive.hpp:109-113 | neurons above without a synapse toward t add nothing to its error |
| Primitives.BackSumAppend | network_core/include/network_core/primitives/Primitive.hpp:109-113 | the back-propagated sum is additive over a split of the layer above |
| Primitives.Accumulate | network_core/include/network_core/primitives/Primitive.hpp:107-113 | the inner loop sums first weight toward t times error over the layer above |
| Primitives.BackPropagated | network_core/include/network_core/primitives/Primitive.hpp:103-117 | only the errors of group g change; shape is kept |
| Primitives.Backpropagate | network_core/include/network_core/primitives/Primitive.hpp:103-117 | the loop changes only the errors of group g and, for distinct groups, gives the back-propagated layer |
| Primitives.TrainedFrame | network_core/include/network_core/primitives/Primitive.hpp:119-125 | a neuron's weight update depends only on its targets' outputs |
| Primitives.Retrained | network_core/include/network_core/primitives/Primitive.hpp:119-125 | only the synapses of group g change; targets and shape are kept |
| Primitives.UpdateWeights | network_core/include/network_core/primitives/Primitive.hpp:119-125 | the in-order loop gives the same result as updating all neurons at once |
| Primitives.WiredPreserved | network_core/src/Network.cpp:18-72 | a feed-forward wiring survives any change that keeps sizes and targets |
| Primitives.WiredGroup | network_core/src/Network.cpp:18-72 | in a feed-forward arena, group g links only into the arena and never into itself |
| Layers.IsSingleLayer | network_core/include/network_core/Network.hpp:100-103 | input and output are single-layer roles; hidden is not |
| Layers.Groups | network_core/include/network_core/Network.hpp:46 | a single shape contributes its one layer, a list its groups in order |
| Layers.PrimitiveLayer.constructor | network_core/include/network_core/Network.hpp:46 | a new holder holds nothing |
| Layers.PrimitiveLayer.CreateSingle | network_core/include/network_core/Network.hpp:49-53 | the holder now holds exactly one new layer of the size, whatever it held |
| Layers.PrimitiveLayer.CreateMulti | network_core/include/network_core/Network.hpp:55-65 | the holder now holds the contents after one multi create |
| Layers.AfterMulti | network_core/include/network_core/Network.hpp:55-65 | an empty holder gets a one-group list; a list grows by a new last group; a single layer is left alone |
| Layers.CreatesAppendInOrder | network_core/include/network_core/Network.hpp:55-65 | repeated multi creates append their groups in call order and keep the earlier ones |
| Layers.CreatesFromNothing | network_core/include/network_core/Network.hpp:58-63 | from an empty holder, n creates give exactly those n groups |
| Layers.CreatesOnSingleIgnored | network_core/include/network_core/Network.hpp:62-64 | multi creates on a single-layer holder are all ignored |
| Training.Forward | network_core/src/Network.cpp:193-199 | groups 1..k get new outputs in (0, 1) and nothing else; the wiring is kept |
| Training.Backward | network_core/src/Network.cpp:213-219 | groups k..1 get new errors and nothing else |
| Training.Retrain | network_core/src/Network.cpp:223-229 | groups 1..k get new weights and nothing else; the wiring is kept |
| Training.Judged | network_core/src/Network.cpp:211 | only the output layer changes |
| Training.Pass | network_core/src/Network.cpp:192-229 | one pass keeps the wiring, the shape, the input layer and every label |
| Training.Propagate | network_core/src/Network.cpp:192-229 | the loops compute the pass |
| Training.Labelled | network_core/src/Network.cpp:168-172 | output neuron i gets the i-th category as its label, and nothing else changes |
| Training.AssignLabels | network_core/src/Network.cpp:168-172 | the loop computes the labelled layer |
| Training.OneHotTarget | network_core/src/Network.cpp:168-172 | with distinct non-empty categories, training on category k gives output k error 1 - output and every other output error -output |
| Training.Overwrite | network_core/src/Network.cpp:184-190 | pixel i becomes the output of input neuron i; neurons past the image keep theirs |
| Training.Inject | network_core/src/Network.cpp:184-190 | the loop loads the image, failing with OutOfRange when it has more pixels than the layer has neurons |
| Training.Learn | network_core/src/Network.cpp:176-229 | an undecodable image changes nothing; an image fails iff it is too large, with OutOfRange; otherwise one pass runs |
| Training.RunSamples | network_core/src/Network.cpp:176 | the images run in order; a failure stops the run; wiring and labels are kept |
| Training.RunCategories | network_core/src/Network.cpp:175 | the categories run in order, with the same guarantees |
| Training.RunEpochs | network_core/src/Network.cpp:174 | the epochs run in order; zero epochs changes nothing |
| Training.UndecodableSkipped | network_core/src/Network.cpp:178-181 | a category whose images all fail to decode changes nothing |
| Training.FittingImagesNeverFail | network_core/src/Network.cpp:184-190 | images no larger than the input layer never abort the run |
| Training.Educated | network_core/src/Network.cpp:168-232 | education keeps the layout; its only failure is OutOfRange; output i keeps category i; zero epochs only labels |
| Networks.KindOf | network_core/include/network_core/Network.hpp:46 | the shape a holder had |
| Networks.Interval | network_core/src/Network.cpp:41-44 | the hidden groups the chain links |
| Networks.LayoutStaged | network_core/src/Network.cpp:4-5 | the copied holders form an arena of new, unlinked neurons |
| Networks.ConnectedStaged | network_core/include/network_core/primitives/Primitive.hpp:55-67 | connecting an unlinked group to its predecessor links it fully, with weights in range |
| Networks.StagedWired | network_core/src/Network.cpp:28-30 | after the constructor's wiring, every synapse of group g points into group g - 1 |
| Networks.LinkGroup | network_core/src/Network.cpp:24-63 | at each of the constructor's three `connect` calls (lines 24, 43 and 63), connecting an unlinked group to its predecessor adds it to the fully linked groups, keeping the rest of the arena as it was |
| Networks.WireChain | network_core/src/Network.cpp:36-44 | hidden group i + 1 is fully connected to hidden group i for each i |
| Networks.Wire | network_core/src/Network.cpp:17-72 | output to last hidden, the chain, then first hidden to input; the result is feed-forward |
| Networks.Network.constructor | network_core/include/network_core/Network.hpp:165-171 | no layers, dataset "", categories [""], no epoch |
| Networks.Network.FromLayers | network_core/src/Network.cpp:4-73 | fails with NotInitialize iff a holder is empty or the hidden list is empty; otherwise a feed-forward network with the given shapes, the listed groups fully connected and the rest unlinked |
| Networks.Network.SetDataset | network_core/src/Network.cpp:75-78 | the dataset path is replaced; nothing else changes |
| Networks.Network.SetCategories | network_core/src/Network.cpp:80-85 | the category list becomes an exact copy; nothing else changes |
| Networks.Network.SetEpoch | network_core/src/Network.cpp:87-90 | the epoch count is set; nothing else changes |
| Networks.TrainSamples | network_core/src/Network.cpp:176-230 | the image loop computes the samples run |
| Networks.TrainCategories | network_core/src/Network.cpp:175-231 | the category loop computes the categories run |
| Networks.TrainEpochs | network_core/src/Network.cpp:174-232 | the epoch loop computes the epochs run |
| Networks.Network.Education | network_core/src/Network.cpp:92-232 | FolderNotFound for an empty or missing dataset and NotInitialize without epoch or categories, each with the arena unchanged; OutOfRange when the folder count differs from the output size; otherwise the arena is the educated one, and the result is its failure or true |

## Left out

- Floating point: doubles are reals, so rounding, overflow and NaN are not modelled. exp is an arbitrary positive (and, where stated, increasing) function, not the exponential.
- `rand()`: the weights are an abstract stream of values in [-0.5, 0.5]; the scaling of `rand()/RAND_MAX` into that range is taken as given.
- Networks.Network.FromLayers: states the range of every drawn weight and which groups are linked, not which draw lands on which synapse.
- The directory walk of education (Network.cpp:111-156) is file-system I/O. It includes filtering folders by the category list and files by extension. The model receives its result: the category folders in the map's iteration order, each with its images.
- Image decoding (`cv::imread`, the channel type and the division by 255) is I/O. A sample is given already decoded and scaled, or as undecodable.
- The second, forward-only loop of education (Network.cpp:234-271) is not modelled. It loads each decoded image into the input layer again and recalculates the hidden and output layers with the final weights, so it rewrites the outputs of those layers. It changes no weight, error or label. The arena that `Networks.Network.Education` describes is the one before that loop, so the outputs it states are not the ones the source ends with.
- Printing (`operator<<`) is not modelled. Neither are the fan-in assertions of the constructor (Network.cpp:26-31, 46-52, 65-70): they sit inside `#ifdef NDEBUG`, so they are compiled only when `assert` is disabled and never check anything. `Networks.Network.FromLayers` proves the fan-in they were meant to check.
- Shared ownership: layers are held through `shared_ptr`, and the network copies its holders. So the caller's holders and the network share the same layers, and that aliasing is not modelled.
- Null `shared_ptr` layers or neurons in `Primitive`, `PrimitiveLayer` and `Network` are never produced by the modelled constructors, so the guards against them are not modelled. The revised neuron's null targets are modelled.
- Networks.Network.Education: requires the canonical combination of holders (a single input layer, a non-empty hidden list, a single output layer) once its checks pass. Other combinations are not covered:
  - without a single output layer, the source dereferences a null `std::get_if` result at once (Network.cpp:163);
  - with a single output layer but a single hidden layer, or a list of input groups, the null hidden or input result is dereferenced only when an image is processed (Network.cpp:187, 194). With zero epochs, or with no decodable image, the source labels the output layer and returns true without undefined behaviour. The model does not cover that case either.
- Primitives.Calculate: its result is pinned down only when the group has no synapse into itself; otherwise only the frame is stated. The network never creates such synapses.
- Primitives.Backpropagate: its result is pinned down only for two distinct groups; otherwise only the frame is stated. The network always uses distinct groups.
- The typed holder classes (`InputLayer`, `HiddenLayer`, `OutputLayer`) are one class with a `kind` field.
- `getCategory`, `getError`, `getOutputValue` and `setOutputValue` are plain field accesses, read and written directly in the model. `size` is `Neurons.Size`.
- The revision's header is not part of this model. Its defaults for output, error and label are taken from `Neuron.hpp`.
- `io.cpp` and the example program are not part of this model.
- `WEIGHT_SYNAPSES_DEFAULT`, the `FileNotFound` and `Parse` errors, and `single_jump` are declared but unused by the core. They are modelled as constants and a function only.

## Findings

| source | as written | input that shows it | evidently intended | confidence | as-written member | corrected member |
|---|---|---|---|---|---|---|
| network_core/include/network_core/primitives/Primitive.hpp:76-85 | `set` throws only for a position greater than the layer size | position equal to the size, e.g. 3 on a layer of 3 neurons: the check passes and the neuron vector is indexed one past its end; education reaches it with an image of exactly one pixel more than the input layer | reject every position at or beyond the size with out_of_range | not executed | Primitives.SetAsWritten, Primitives.OnePastTheEndGetsThrough | Primitives.Set |
| network_core/include/network_core/primitives/Primitive.hpp:139-149 | `setCategory` has the same check | position equal to the size of the output layer | reject every position at or beyond the size | not executed | Primitives.SetCategoryAsWritten, Primitives.OnePastTheEndGetsThrough | Primitives.SetCategory |
