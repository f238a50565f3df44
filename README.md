# BRNN: a verified model of the bidirectional recurrent network core

This project models the core of `nets/brnn.py`, a bidirectional recurrent
neural network trained on character sequences. It covers:

- the network's layers and their flags: which hidden layer recurs, in which
  directions, and which layer is the softmax output;
- the allocation of the weights and gradients, and the names (`W<k>`, `b<k>`,
  `W<k>f`, `W<k>b`) under which they are published in the network's
  `params` and `grads` dictionaries;
- the time-major layout of a batch, where timestep `t` of example `k` is
  column `t * bsize + k`, and the recurrences that walk its blocks forwards
  (`fprop_recur`) and backwards (`bprop_recur`);
- one training step (`cost_and_grad`): the forward pass (`forward_prop`), the
  softmax cross-entropy (`cross_ent`) and the backward pass (`backprop`).

The model is split into modules:

- `Numerics` holds matrices (`Mat`, a sequence of columns) and the array
  kernels the network calls (`Ops`). The kernels are function values. The
  model promises only that they keep the column count the slicing depends
  on.
- `TimeMajor` is the column layout: blocks, splicing a block into a layout,
  and flattening a batch.
- `Recurrence` holds the recurrent loops of `fprop_recur` and `bprop_recur`.
  They are in-place loops over an `array` buffer. Each is proved against a
  reference definition, `Hidden` or `Delta`, that gives every block its
  value by recursion over time.
- `CrossEntropy` is the nested scoring loop of `cross_ent`, over a
  two-dimensional cost array and a deltas buffer. It is proved against the
  cost table and delta layout it must produce, including the index errors.
- `Topology` covers the layer flags (`layer_specs`), the parameter names and
  the dictionaries built from them.
- `Stack` holds the layer-by-layer specification of the forward and backward
  passes: the activations, the hidden states left on each layer, the deltas
  at each layer, and the gradients.
- `Network` holds the classes `Layer` and `Brnn`, whose fields the source
  updates in place. Its methods are proved against the `Stack` functions.

The dictionaries map names to references (`Slot(layer, kind)`) rather than
to copies. This mirrors Python, where the dictionaries share the layers'
arrays. So `grads == params` after `alloc_grads` states that every gradient
is published under its parameter's name. `Layer.Allocated` states that each
gradient is a zero matrix of its parameter's shape.

`bprop_recur` as written does not scale the terminal block of the returned
deltas by the nonlinearity's gradient (see "## Findings"). The rest of the
model uses the corrected recurrence, `Recurrence.Backward`.

## Model

| member | source | states |
|---|---|---|
| Topology.RecurrentLayers | nets/brnn.py:73-83 | exactly hidden layer `recurrent_layer - 1` recurs forward when that is a hidden layer, and no layer otherwise; backward recurrence happens only there and only when bidirectional; no hidden layer is a softmax layer |
| Topology.DefaultsTopology | nets/brnn.py:23-33 | with the declared defaults, hidden layer 2 alone recurs, and only forward |
| Topology.DecimalInjective | nets/brnn.py:102-103 | the `%d` rendering of layer indices is injective |
| Topology.ParamNameInjective | nets/brnn.py:102-107 | the names `W<k>`, `b<k>`, `W<k>f`, `W<k>b` differ for any two different (kind, layer) pairs |
| Topology.SlotNamesInjective | nets/brnn.py:102-107 | no two tensors are published under the same name |
| Topology.SlotCount | nets/brnn.py:95-115 | the first `n` layers own two tensors each, plus one recurrent weight (two if bidirectional) once the recurrent layer is among them and is a hidden layer |
| Topology.AddLayerPublishes | nets/brnn.py:102-107 | one pass of the allocation loop adds exactly layer `k`'s tensors to what the dictionary held |
| Topology.PublishedGrows | nets/brnn.py:122-129 | the dictionary for the first `n + 1` layers is the one for the first `n` after the pass for layer `n` |
| Topology.PublishedNames | nets/brnn.py:95-115 | a name is in the network's dictionary exactly when layer `k <= hidden_layers` owns that kind of tensor, and it then refers to that tensor |
| Network.Layer.constructor | nets/brnn.py:39-63 | a layer has the given flags, an `out x in` weight drawn from the random stream, an `out x 1` zero bias, zero gradients of the same shapes, and square recurrent weights with zero gradients for the enabled directions only |
| Network.Brnn.constructor | nets/brnn.py:68-89 | `hidden_layers + 1` distinct, newly allocated layers with the flags of `layer_specs` and the softmax layer last; every layer is allocated with its sizes; `params` publishes every tensor under its name; for training, `grads` publishes each gradient under its parameter's name |
| Network.Brnn.AllocParams | nets/brnn.py:95-117 | newly allocated layers: the hidden layers with their specs map the input size (first layer) or the hidden size to the hidden size, the softmax layer maps the hidden size to the output size, and `params` gains exactly their tensors |
| Network.Brnn.AllocHidden | nets/brnn.py:98-110 | after the loop, the hidden layers are built and published, in order |
| Network.Brnn.AddLayerAt | nets/brnn.py:101-109 | one fresh layer is appended, its weight is the next draw of the random stream, and its tensors are published under its index |
| Network.Brnn.AllocGrads | nets/brnn.py:119-129 | `grads` publishes, for every layer, the gradient of each of its tensors, and nothing else |
| Network.Brnn.SetBatch | nets/brnn.py:144-147 | `T` and `bsize` are set from the batch, and example `k` of timestep `t` lands in column `t * bsize + k` |
| TimeMajor.FlattenColumn | nets/brnn.py:147 | merging the time and example axes puts example `k` of timestep `t` in column `t * bsize + k` |
| TimeMajor.ColumnDecodes | nets/brnn.py:147 | a column decodes back to its timestep and example |
| Recurrence.RecurForward | nets/brnn.py:234-256 | the hidden states are `T * bsize` columns whose block `t` is the reference hidden state `Hidden` of block `t` |
| Recurrence.Forward | nets/brnn.py:234-256 | the in-place loop leaves the reference hidden state in every block; its invariant keeps the blocks already visited, from the first (forward) or the last (reverse), finished and the rest untouched |
| Recurrence.VisitsEachOnce | nets/brnn.py:245-249 | the walk visits every block exactly once |
| Recurrence.NeighbourFits | nets/brnn.py:250-253 | the neighbour slice starts at the previous block's first column and never before column 0 |
| Recurrence.StepValueCases | nets/brnn.py:249-254 | the first block handled is the nonlinearity of its affine output; every later block adds `W` times the hidden state of its neighbour before the nonlinearity |
| Recurrence.HiddenMirror | nets/brnn.py:237-254 | the reverse direction is the forward direction run on the time-reversed affine output |
| Recurrence.HiddenCausal | nets/brnn.py:245-254 | the forward hidden state of block `t` depends only on blocks `0 .. t` of the affine output |
| Recurrence.RecurBackward | nets/brnn.py:258-292 | the deltas are `T * bsize` columns whose block `t` is the reference delta `Delta` of block `t` |
| Recurrence.Backward | nets/brnn.py:258-292 | corrected `bprop_recur` (see Findings): every block of the result is its reference delta, the terminal block (last forward, first in reverse) written first and the loop walking inward from it; the weight gradient pairs those deltas with the hidden states |
| Recurrence.BackwardAsWritten | nets/brnn.py:258-292 | `bprop_recur` as written: the terminal block still holds the incoming delta, every other block holds its reference delta, and the weight gradient pairs the result with the hidden states |
| Recurrence.TerminalBlockUnscaled | nets/brnn.py:271-272 | on one rectified timestep with state 0, the reference delta is 0 while the incoming delta is 1 |
| Recurrence.GradPairing | nets/brnn.py:286-290 | the gradient operands pair the delta of block `u + 1` with the hidden state of block `u` forward, and delta `u` with state `u + 1` in reverse |
| CrossEntropy.CrossEnt | nets/brnn.py:294-305 | when every label fits, the result is the cost table and the deltas; when an example's labels run past the batch or past the output rows, the result is an index error |
| CrossEntropy.ScoredEntry | nets/brnn.py:299-303 | a labelled timestep costs minus the log probability of its label and lowers exactly that entry of its column by one; a timestep past the end of the labels costs 0 and keeps its column |
| CrossEntropy.ColumnsDistinct | nets/brnn.py:301-303 | distinct (timestep, example) pairs write distinct columns |
| CrossEntropy.ColumnTimestep | nets/brnn.py:301-303 | a column index is inside the layout exactly when its timestep is inside the batch |
| CrossEntropy.LongLabelsError | nets/brnn.py:300-302 | an example with more labels than the batch has timesteps is an index error |
| Stack.Activations | nets/brnn.py:186-208 | the cached activations start with the input, and each next one is the previous layer's output rule applied to its affine output |
| Stack.LayerOutByRole | nets/brnn.py:196-206 | the softmax layer passes its affine output on unchanged; a plain hidden layer applies the nonlinearity; the recurrent layer sums both directions when bidirectional and uses the forward one otherwise |
| Stack.LayerBackByRole | nets/brnn.py:219-232 | the deltas mirror the forward rule: both recurrent directions of the corrected recurrence summed, or the forward one, for the recurrent layer; the nonlinearity's gradient for every other hidden layer |
| Stack.RanReady | nets/brnn.py:162-179 | a forward pass that has run every recurrent layer leaves each enabled direction's hidden states for the backward pass |
| Stack.GradsFromStep | nets/brnn.py:213-228 | one pass of the backward loop sets layer `k`'s weight and bias gradients and the recurrent gradients of layer `k - 1`, from the corrected recurrence |
| Network.Brnn.FpropRecur | nets/brnn.py:234-256 | the result is the direction's reference hidden states, it is stored on the layer for that direction only, and no gradient changes |
| Network.Brnn.LayerForward | nets/brnn.py:193-206 | the layer's output is its output rule on the affine output, and the layer keeps the hidden states of each enabled direction |
| Network.Brnn.ForwardProp | nets/brnn.py:186-210 | the activations run from the last cached one are cached until `hidden_layers + 1` are cached; the result is the softmax of the last affine output; the layers that ran hold their hidden states; no gradient changes |
| Network.Brnn.RunLayers | nets/brnn.py:187-208 | the loop stops before the layer at which `hidden_layers + 1` activations are cached, and returns that layer's affine output, or the softmax layer's own output once every layer has run |
| Network.Brnn.ForwardLayer | nets/brnn.py:193-208 | one pass runs layer `k` and caches its output |
| Network.Brnn.BpropRecur | nets/brnn.py:258-292 | the result is the direction's reference deltas of the corrected recurrence (see Findings), and only that direction's weight gradient changes, to the pairing of those deltas with the hidden states |
| Network.Brnn.LayerBackward | nets/brnn.py:219-232 | the deltas handed down follow the layer's backward rule, through the corrected recurrence for a recurrent layer, and the recurrent gradients of its enabled directions are set |
| Network.Brnn.Backprop | nets/brnn.py:212-232 | with the corrected recurrence, from the top down, every layer's weight and bias gradients pair its deltas with its cached input, every recurrent layer below the top gets its recurrent gradients, and the hidden states stay as they were |
| Network.Brnn.BackLayer | nets/brnn.py:213-232 | with the corrected recurrence, one pass of the backward loop takes the gradients from layers `k + 1` and up to layers `k` and up, and returns the deltas of layer `k - 1` |
| Network.Brnn.DenseStep | nets/brnn.py:215-216 | layer `k`'s weight and bias gradients come from its deltas and its cached input; nothing else changes |
| Network.Brnn.RecurStep | nets/brnn.py:217-232 | the deltas of layer `k - 1` are computed through layer `k`'s weight and the corrected recurrence, and only layer `k - 1`'s recurrent gradients change |
| Network.Brnn.ForwardFrom | nets/brnn.py:162-163 | from the batch alone, the forward pass caches the input and every hidden layer's output and returns the probabilities of the softmax layer |
| Network.Brnn.ScoreAndBack | nets/brnn.py:168-184 | an index error when the labels do not fit; otherwise the cost is the total cost divided by `bsize`, and with `back` also by `T`, after the corrected backward pass from the scoring's deltas |
| Network.Brnn.CostAndGrad | nets/brnn.py:160-184 | without labels, the probabilities; with labels, an index error, or the cost per example (and per timestep with `back`) with the gradients of the corrected backward pass; gradients change only when training |

## Left out

- `dsets/dset_paths.py` is not part of this model: it only names dataset paths.
- Numeric values: the array kernels are parameters, and the model promises only that they keep the column count. Floating point, row shapes through the products, and broadcasting are not modelled.
- Random initialisation: `yl_init` is the parameter `ylInit`, a random stream indexed by the number of earlier draws. The layers draw their weights in the source's order (`W`, then `Wf`, then `Wb`, layer by layer), so no two weights are forced equal. Which draw a weight comes from is stated per layer only, by `Network.Layer.constructor` and `Network.Brnn.AddLayerAt`; no contract of the network states the draw index of each layer. The distribution of the draws is not modelled.
- GPU handling (`USE_GPU`, `gnp.free_reuse_cache`) is left out.
- `run`: fetching a batch from the dataset, `one_hot_lists`, the gradient check branch and `update_params` are left out. Only setting `T` and `bsize` and merging the time and example axes are modelled (`Network.Brnn.SetBatch`).
- The `Net` base class is not part of this model. Its constructor is taken to start with empty dictionaries. `create_optimizer`, `update_params`, `check_grad` and `count_params` are left out.
- Logging (the gradient count in `alloc_grads`) and the command-line block (lines 308-327) are left out.
- Each layer's own `params` and `grads` dictionaries (`'W'`, `'b'`, `'Wf'`, `'Wb'`) are not kept separately: the network's dictionaries refer to the layer's tensors directly.
- `max_act` and the rest of the hyperparameter machinery are left out; the core never reads them.
- Network.Brnn.ForwardProp: requires at least one cached activation. With none, the source fails on `acts[-1]`.
- Network.Brnn.CostAndGrad: requires a batch with at least one timestep and one example; degenerate batches are not modelled. That includes the unlabelled path, which would go through with an empty batch.
- Network.Brnn.BpropRecur, Network.Brnn.LayerBackward, Network.Brnn.Backprop, Network.Brnn.RecurStep, Network.Brnn.ScoreAndBack: require at least one timestep; degenerate batches are not modelled. Their only callers reach them through `Network.Brnn.CostAndGrad`, which requires the same. With `T = 0` the source's slices are empty and it returns a zero weight gradient.
- CrossEntropy.CrossEnt: labels are natural numbers. Python's negative indices, which count from the end, are not modelled.
- Network.Brnn.BpropRecur, Network.Brnn.LayerBackward, Network.Brnn.Backprop, Network.Brnn.BackLayer, Network.Brnn.RecurStep, Network.Brnn.ScoreAndBack, Network.Brnn.CostAndGrad, Stack.RecurBack, Stack.LayerBackByRole, Stack.GradsFromStep: these use the corrected recurrence `Recurrence.Backward` of the Findings row, not `bprop_recur` as written. They differ from the source in the terminal block of every recurrent direction's deltas, and so in that layer's recurrent weight gradient and in everything computed below it.
- Network.Brnn.CostAndGrad: `cross_ent` starts its deltas as `as_np(probs)`, which on the CPU may be the probabilities array itself. The source could then return, with `back=False`, probabilities whose label entries are already lowered by one. The model takes the deltas as a copy, and `CostAndGrad` returns the untouched softmax.
- Recurrence.Forward, Recurrence.Backward: the view aliasing of numpy slices is modelled as writes of whole blocks into one buffer.

## Findings

| source | as written | input that shows it | evidently intended | confidence | as-written member | corrected member |
|---|---|---|---|---|---|---|
| nets/brnn.py:271-272 | the terminal block's delta is scaled by the nonlinearity's gradient into a new array `curr_dt`, which feeds the recursion but is never written back, so the returned deltas and the weight gradient use the unscaled incoming block | `T = 1`, `bsize = 1`, rectifier, hidden state 0, incoming delta 1: the returned delta is 1, the pre-activation delta is 0 | every returned block, the terminal one included, is scaled by the nonlinearity's gradient | not executed | Recurrence.BackwardAsWritten | Recurrence.Backward |
