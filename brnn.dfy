/**
 * The bidirectional recurrent network: its layers, the dictionaries that
 * publish their parameters and gradients, and one training step (forward
 * pass, softmax cross-entropy, backward pass).
 */
module Network {
  import opened Numerics
  import opened TimeMajor
  import opened Topology
  import opened Recurrence
  import opened CrossEntropy
  import opened Stack

  /**
   * One layer: its flags, its weights, the gradients the backward pass
   * writes, and the hidden states the forward pass leaves behind.  A
   * recurrent weight, its gradient and its hidden states exist only for an
   * enabled direction.
   */
  class Layer {
    const fRecur: bool
    const bRecur: bool
    const softmax: bool
    const W: Mat
    const b: Mat
    const Wf: Option<Mat>
    const Wb: Option<Mat>
    var dW: Mat
    var db: Mat
    var dWf: Option<Mat>
    var dWb: Option<Mat>
    var fActs: Option<Mat>
    var bActs: Option<Mat>

    /** The layer's flags and weights as a value. */
    function Value(): LayerValue {
      LayerValue(LayerSpec(fRecur, bRecur, softmax), W, b, Wf, Wb)
    }

    /** The layer's gradients. */
    function Grads(): LayerGrads
      reads this
    {
      LayerGrads(dW, db, dWf, dWb)
    }

    /** The hidden states the layer holds. */
    function Cached(): Cache
      reads this
    {
      Cache(fActs, bActs)
    }

    /**
     * The layer as its constructor leaves it: weights of the shapes its sizes
     * call for, zero gradients of the same shapes, no hidden states.
     */
    ghost predicate Allocated(inSize: nat, outSize: nat)
      reads this
    {
      && Value().WellFormed()
      && IsShape(W, outSize, inSize) && IsShape(b, outSize, 1)
      && dW == ZerosLike(W) && db == ZerosLike(b)
      && (fRecur ==> IsShape(Wf.value, outSize, outSize) && dWf == Some(ZerosLike(Wf.value)))
      && (bRecur ==> IsShape(Wb.value, outSize, outSize) && dWb == Some(ZerosLike(Wb.value)))
      && fActs == None && bActs == None
    }

    /**
     * A freshly built layer mapping `inSize` rows to `outSize` rows: random
     * weights, zero bias, zero gradients of the weights' shapes, and square
     * recurrent weights for the enabled directions only.  The random weights
     * are the next draws of the random stream, from draw `n` on, in the
     * order `W`, `Wf`, `Wb`.
     */
    constructor(ops: Ops, n: nat, inSize: nat, outSize: nat, fRecur: bool, bRecur: bool, softmax: bool)
      requires ops.Valid()
      ensures Value() == LayerValue(LayerSpec(fRecur, bRecur, softmax), ops.ylInit(n, outSize, inSize), Zeros(outSize, 1),
                                    if fRecur then Some(ops.ylInit(n + 1, outSize, outSize)) else None,
                                    if bRecur then Some(ops.ylInit(n + Draws(fRecur, false), outSize, outSize)) else None)
      ensures Value().WellFormed()
      ensures IsShape(W, outSize, inSize) && IsShape(b, outSize, 1)
      ensures fRecur ==> IsShape(Wf.value, outSize, outSize)
      ensures bRecur ==> IsShape(Wb.value, outSize, outSize)
      ensures dW == ZerosLike(W) && db == ZerosLike(b)
      ensures dWf == (if fRecur then Some(ZerosLike(Wf.value)) else None)
      ensures dWb == (if bRecur then Some(ZerosLike(Wb.value)) else None)
      ensures fActs == None && bActs == None
      ensures Allocated(inSize, outSize)
    {
      this.fRecur := fRecur;
      this.bRecur := bRecur;
      this.softmax := softmax;
      W := ops.ylInit(n, outSize, inSize);
      b := Zeros(outSize, 1);
      dW := ZerosLike(ops.ylInit(n, outSize, inSize));
      db := ZerosLike(Zeros(outSize, 1));
      var wf, wb := None, None;
      if fRecur {
        wf := Some(ops.ylInit(n + 1, outSize, outSize));
      }
      if bRecur {
        wb := Some(ops.ylInit(n + Draws(fRecur, false), outSize, outSize));
      }
      Wf := wf;
      Wb := wb;
      dWf := if fRecur then Some(ZerosLike(wf.value)) else None;
      dWb := if bRecur then Some(ZerosLike(wb.value)) else None;
      fActs := None;
      bActs := None;
    }
  }

  /** How many weights a layer with these flags draws from the random stream. */
  function Draws(fRecur: bool, bRecur: bool): nat {
    1 + (if fRecur then 1 else 0) + (if bRecur then 1 else 0)
  }

  /** What one step of `cost_and_grad` hands back. */
  datatype StepResult =
    | Unlabelled(probs: Mat)                   // no labels: `(None, probs)`
    | Evaluated(cost: real, probs: Mat)        // `back=False`: the cost per example and the probabilities
    | Trained(cost: real, grads: map<string, Slot>) // the cost per example and timestep, and the gradients
    | LabelIndexError                          // `cross_ent` indexed past the batch or the output rows

  /** The sum of a table of costs. */
  function Total(costs: seq<seq<real>>): real {
    if costs == [] then 0.0 else Total(costs[..|costs| - 1]) + RowTotal(costs[|costs| - 1])
  }

  function RowTotal(row: seq<real>): real {
    if row == [] then 0.0 else RowTotal(row[..|row| - 1]) + row[|row| - 1]
  }

  /** The softmax layer: not recurrent. */
  function SoftmaxSpec(): LayerSpec {
    LayerSpec(false, false, true)
  }

  /**
   * Layers `ls` are distinct objects, and layer `j` has flags `specs[j]` and
   * is freshly allocated with the sizes of position `j`.
   */
  ghost predicate BuiltAs(hps: Hyperparams, ls: seq<Layer>, specs: seq<LayerSpec>)
    reads ls
  {
    && |ls| <= |specs|
    && (forall i, j :: 0 <= i < j < |ls| ==> ls[i] != ls[j])
    && (forall j :: 0 <= j < |ls| ==>
          ls[j].Value().spec == specs[j] && ls[j].Allocated(InSize(hps, j), OutSize(hps, j)))
  }

  lemma BuiltGrows(hps: Hyperparams, ls: seq<Layer>, specs: seq<LayerSpec>, l: Layer)
    requires BuiltAs(hps, ls, specs) && |ls| < |specs| && l !in ls
    requires l.Value().spec == specs[|ls|] && l.Allocated(InSize(hps, |ls|), OutSize(hps, |ls|))
    ensures BuiltAs(hps, ls + [l], specs)
  {
  }

  class Brnn {
    const hps: Hyperparams
    const ops: Ops
    const train: bool
    var layerSpecs: seq<LayerSpec>
    var layers: seq<Layer>
    var params: map<string, Slot>
    var grads: map<string, Slot>
    var acts: seq<Mat>
    var T: nat
    var bsize: nat

    /** `self.nl` */
    function Nl(): Mat -> Mat {
      ops.getNl(hps.nl)
    }

    /**
     * The network's shape invariant: `hiddenLayers` hidden layers and the
     * softmax layer, all distinct objects, each with the flags its index
     * calls for and a recurrent weight for each enabled direction.
     */
    ghost predicate Valid()
      reads this`layers
    {
      && ops.Valid()
      && |layers| == hps.hiddenLayers + 1
      && (forall i, j :: 0 <= i < j < |layers| ==> layers[i] != layers[j])
      && (forall k :: 0 <= k < |layers| ==>
            layers[k].Value().spec == LayerFlags(hps, k) && layers[k].Value().WellFormed())
    }

    /** The layers' flags and weights. */
    function Values(): (ls: seq<LayerValue>)
      reads this`layers
      ensures |ls| == |layers|
      ensures forall k :: 0 <= k < |layers| ==> ls[k] == layers[k].Value()
    {
      var ls := layers;
      seq(|ls|, k requires 0 <= k < |ls| => ls[k].Value())
    }

    /** The hidden states each layer holds. */
    function Caches(): (cs: seq<Cache>)
      reads this`layers, layers
      ensures |cs| == |layers|
      ensures forall k :: 0 <= k < |layers| ==> cs[k] == layers[k].Cached()
    {
      var ls := layers;
      seq(|ls|, k requires 0 <= k < |ls| reads ls => ls[k].Cached())
    }

    /** The flags the layers were built with. */
    function Specs(): (specs: seq<LayerSpec>)
      reads this`layers
      ensures |specs| == |layers|
      ensures forall k :: 0 <= k < |layers| ==> specs[k] == layers[k].Value().spec
    {
      var ls := layers;
      seq(|ls|, k requires 0 <= k < |ls| => ls[k].Value().spec)
    }

    /**
     * `BRNN(hps, train)`: the hidden layers' flags, then the parameters, then
     * (for training) the gradients.  Every tensor is published under its
     * name in `params`, and for training `grads` publishes the gradient of
     * every parameter under the same name.
     */
    constructor(hps: Hyperparams, ops: Ops, train: bool)
      requires ops.Valid()
      ensures this.hps == hps && this.ops == ops && this.train == train
      ensures Valid()
      ensures layerSpecs == LayerSpecs(hps)
      ensures forall k :: 0 <= k < |layers| ==> layers[k].Allocated(InSize(hps, k), OutSize(hps, k))
      ensures forall k :: 0 <= k < |layers| ==> fresh(layers[k])
      ensures params == Published(NetSpecs(hps))
      ensures train ==> grads == params
      ensures acts == []
    {
      this.hps := hps;
      this.ops := ops;
      this.train := train;
      layerSpecs := LayerSpecs(hps);
      params := map[];
      grads := map[];
      layers := [];
      acts := [];
      T := 0;
      bsize := 0;
      new;
      AllocParams();
      ghost var specs := NetSpecs(hps);
      assert layerSpecs[..hps.hiddenLayers] + [SoftmaxSpec()] == specs;
      MergeEmpty(Published(specs));
      if train {
        AllocGrads();
        assert Specs() == specs;
      }
    }

    /**
     * `alloc_params`: builds hidden layer `k` with flags `layerSpecs[k]`,
     * mapping the input size (first layer) or the hidden size to the hidden
     * size, then the softmax layer from the hidden size to the output size,
     * and publishes each layer's tensors in `params` as it goes.
     */
    method AllocParams()
      requires ops.Valid() && |layerSpecs| >= hps.hiddenLayers
      modifies this
      ensures layerSpecs == old(layerSpecs) && grads == old(grads) && acts == old(acts)
      ensures T == old(T) && bsize == old(bsize)
      ensures |layers| == hps.hiddenLayers + 1
      ensures BuiltAs(hps, layers, layerSpecs[..hps.hiddenLayers] + [SoftmaxSpec()])
      ensures forall k :: 0 <= k < |layers| ==> fresh(layers[k])
      ensures params == old(params) + Published(layerSpecs[..hps.hiddenLayers] + [SoftmaxSpec()])
    {
      ghost var specs := layerSpecs[..hps.hiddenLayers] + [SoftmaxSpec()];
      ghost var p0 := params;
      var draws := AllocHidden(specs);
      var n := hps.hiddenLayers;
      PublishedOver(p0, specs, n);
      assert specs[..n + 1] == specs;
      ghost var ls := layers;
      var layer, _ := AddLayerAt(n, draws, hps.hiddenSize, hps.outputSize, SoftmaxSpec());
      BuiltGrows(hps, ls, specs, layer);
    }

    /**
     * The loop of `alloc_params` over the hidden layers; `draws` counts the
     * weights drawn from the random stream so far.
     */
    method AllocHidden(ghost specs: seq<LayerSpec>) returns (draws: nat)
      requires ops.Valid() && |layerSpecs| >= hps.hiddenLayers
      requires specs == layerSpecs[..hps.hiddenLayers] + [SoftmaxSpec()]
      modifies this
      ensures layerSpecs == old(layerSpecs) && grads == old(grads) && acts == old(acts)
      ensures T == old(T) && bsize == old(bsize)
      ensures |layers| == hps.hiddenLayers
      ensures BuiltAs(hps, layers, specs)
      ensures forall k :: 0 <= k < |layers| ==> fresh(layers[k])
      ensures params == old(params) + Published(specs[..hps.hiddenLayers])
    {
      ghost var p0 := params;
      layers := [];
      draws := 0;
      var inSize := hps.inputSize;
      var k := 0;
      PublishedNone(specs);
      while k < hps.hiddenLayers
        invariant k <= hps.hiddenLayers && |layers| == k
        invariant inSize == if k == 0 then hps.inputSize else hps.hiddenSize
        invariant BuiltAs(hps, layers, specs)
        invariant forall j :: 0 <= j < |layers| ==> fresh(layers[j])
        invariant params == p0 + Published(specs[..k])
        invariant layerSpecs == old(layerSpecs) && grads == old(grads) && acts == old(acts)
        invariant T == old(T) && bsize == old(bsize)
      {
        var spec := layerSpecs[k];
        PublishedOver(p0, specs, k);
        ghost var ls := layers;
        var layer;
        layer, draws := AddLayerAt(k, draws, inSize, hps.hiddenSize, spec);
        BuiltGrows(hps, ls, specs, layer);
        inSize := hps.hiddenSize;
        k := k + 1;
      }
    }

    /**
     * One pass of `alloc_params`: builds layer `k` with flags `spec`,
     * publishes `W<k>` and `b<k>`, then `W<k>f` and `W<k>b` when the layer
     * has them, and appends the layer.
     */
    method AddLayerAt(k: nat, n: nat, inSize: nat, outSize: nat, spec: LayerSpec) returns (layer: Layer, next: nat)
      requires ops.Valid()
      modifies this
      ensures fresh(layer) && layer.Value().spec == spec && layer.Allocated(inSize, outSize)
      ensures layer.W == ops.ylInit(n, outSize, inSize) && next == n + Draws(spec.fRecur, spec.bRecur)
      ensures layers == old(layers) + [layer]
      ensures params == AddLayer(old(params), k, spec)
      ensures layerSpecs == old(layerSpecs) && grads == old(grads) && acts == old(acts)
      ensures T == old(T) && bsize == old(bsize)
    {
      layer := new Layer(ops, n, inSize, outSize, spec.fRecur, spec.bRecur, spec.softmax);
      next := n + Draws(spec.fRecur, spec.bRecur);
      params := params[ParamName(Weight, k) := Slot(k, Weight)];
      params := params[ParamName(Bias, k) := Slot(k, Bias)];
      if layer.fRecur {
        params := params[ParamName(ForwardRecur, k) := Slot(k, ForwardRecur)];
      }
      if layer.bRecur {
        params := params[ParamName(BackwardRecur, k) := Slot(k, BackwardRecur)];
      }
      layers := layers + [layer];
    }

    /**
     * `alloc_grads`: a fresh dictionary publishing, for every layer, the
     * gradient of each of its tensors under that tensor's name.
     */
    method AllocGrads()
      modifies this
      ensures grads == Published(Specs())
      ensures layers == old(layers) && layerSpecs == old(layerSpecs) && params == old(params)
      ensures acts == old(acts) && T == old(T) && bsize == old(bsize)
    {
      ghost var specs := Specs();
      grads := map[];
      var k := 0;
      PublishedNone(specs);
      while k < |layers|
        invariant k <= |layers| == |specs|
        invariant grads == Published(specs[..k])
        invariant layers == old(layers) && layerSpecs == old(layerSpecs) && params == old(params)
        invariant acts == old(acts) && T == old(T) && bsize == old(bsize)
      {
        var layer := layers[k];
        ghost var before := grads;
        grads := grads[ParamName(Weight, k) := Slot(k, Weight)];
        grads := grads[ParamName(Bias, k) := Slot(k, Bias)];
        if layer.fRecur {
          grads := grads[ParamName(ForwardRecur, k) := Slot(k, ForwardRecur)];
        }
        if layer.bRecur {
          grads := grads[ParamName(BackwardRecur, k) := Slot(k, BackwardRecur)];
        }
        assert grads == AddLayer(before, k, specs[k]);
        PublishedGrows(specs, k);
        k := k + 1;
      }
      assert specs[..k] == specs;
      assert specs == Specs();
    }
  
    /**
     * The batch preparation of `run`: a batch of `|batch|` timesteps, each
     * holding `width` example columns, becomes one time-major matrix with
     * timestep `t` of example `k` in column `t * width + k`.
     */
    method SetBatch(batch: seq<Mat>, width: nat) returns (data: Mat)
      requires forall t :: 0 <= t < |batch| ==> |batch[t]| == width
      modifies this
      ensures T == |batch| && bsize == width && |data| == T * bsize
      ensures forall t, k :: 0 <= t < T && 0 <= k < bsize ==>
        Column(t, k, bsize) < |data| && data[Column(t, k, bsize)] == batch[t][k]
      ensures layers == old(layers) && layerSpecs == old(layerSpecs) && params == old(params)
      ensures grads == old(grads) && acts == old(acts)
    {
      T := |batch|;
      bsize := width;
      data := Flatten(batch, width);
      forall t, k | 0 <= t < T && 0 <= k < bsize
        ensures Column(t, k, bsize) < |data| && data[Column(t, k, bsize)] == batch[t][k]
      {
        FlattenColumn(batch, width, t, k);
      }
    }

    /**
     * `fprop_recur`: the hidden states of one recurrent direction of `layer`
     * for affine output `z`, also left on the layer for the backward pass.
     */
    method FpropRecur(layer: Layer, z: Mat, reverse: bool) returns (r: Mat)
      requires ops.Valid() && layer.Value().WellFormed() && |z| == T * bsize
      requires if reverse then layer.bRecur else layer.fRecur
      modifies layer
      ensures r == Recur(ops, hps.nl, layer.Value(), z, T, bsize, reverse)
      ensures layer.fActs == if reverse then old(layer.fActs) else Some(r)
      ensures layer.bActs == if reverse then Some(r) else old(layer.bActs)
      ensures layer.Grads() == old(layer.Grads())
    {
      var W := if reverse then layer.Wb.value else layer.Wf.value;
      NlKeepsWidth(ops, hps.nl);
      r := Forward(ops, Nl(), W, z, T, bsize, reverse);
      BlocksDetermine(r, RecurForward(ops, Nl(), W, z, T, bsize, reverse), T, bsize);
      if reverse {
        layer.bActs := Some(r);
      } else {
        layer.fActs := Some(r);
      }
    }

    /**
     * One layer of `forward_prop` below the break: runs the enabled
     * recurrent directions on the affine output `out` and returns what the
     * layer passes up.
     */
    method LayerForward(layer: Layer, out: Mat) returns (h: Mat)
      requires ops.Valid() && layer.Value().WellFormed() && |out| == T * bsize
      modifies layer
      ensures h == LayerOut(ops, hps.nl, layer.Value(), out, T, bsize)
      ensures layer.Cached() == Ran(ops, hps.nl, layer.Value(), old(layer.Cached()), out, T, bsize)
      ensures layer.Grads() == old(layer.Grads())
    {
      var fActs, bActs: Mat;
      if layer.fRecur {
        fActs := FpropRecur(layer, out, false);
      }
      if layer.bRecur {
        bActs := FpropRecur(layer, out, true);
      }
      if layer.fRecur && layer.bRecur {
        h := ops.add(fActs, bActs);
      } else if layer.fRecur {
        h := fActs;
      } else if layer.bRecur {
        h := bActs;
      } else if !layer.softmax {
        NlKeepsWidth(ops, hps.nl);
        h := Nl()(out);
      } else {
        h := out;
      }
    }
  
    /**
     * How many layers `forward_prop` runs to completion when it starts with
     * `a0` cached activations: it stops before running a layer once
     * `hiddenLayers + 1` activations are cached, so a run from one input runs
     * the hidden layers and stops at the softmax layer.
     */
    function Reached(a0: nat): nat {
      if a0 <= hps.hiddenLayers + 1 then hps.hiddenLayers + 1 - a0 else hps.hiddenLayers + 1
    }

    /**
     * `forward_prop`: from the last cached activation `x`, runs layer after
     * layer, each on the affine output of the activation before it, caching
     * each layer's output, until `hiddenLayers + 1` activations are cached or
     * every layer has run.  The result is the softmax of the last affine
     * output computed, which is not cached.  Recurrent layers keep their
     * hidden states; no gradient changes.
     */
    method ForwardProp() returns (probs: Mat)
      requires Valid() && |acts| >= 1 && |acts[|acts| - 1]| == T * bsize
      modifies this, layers
      ensures layers == old(layers) && layerSpecs == old(layerSpecs) && params == old(params)
      ensures grads == old(grads) && T == old(T) && bsize == old(bsize)
      ensures Valid()
      ensures Gradients() == old(Gradients())
      ensures var n := Reached(|old(acts)|);
              var ins := Activations(ops, hps.nl, Values(), old(acts)[|old(acts)| - 1], n, T, bsize);
              && acts == old(acts) + ins[1..]
              && probs == ops.softmax(if n < |layers| then Affine(ops, Values()[n], ins[n]) else ins[n])
              && Caches() == RanUpTo(ops, hps.nl, Values(), old(Caches()), ins, n, T, bsize)
    {
      ghost var a0 := acts;
      ghost var n := Reached(|acts|);
      ghost var ls := Values();
      ghost var cs := Caches();
      ghost var gs := Gradients();
      ghost var ins := Activations(ops, hps.nl, ls, acts[|acts| - 1], n, T, bsize);
      assert ins[1..n + 1] == ins[1..];
      assert RanUpTo(ops, hps.nl, ls, cs, ins, 0, T, bsize) == cs;
      var out := RunLayers(a0, ins, ls, cs, gs, n);
      probs := ops.softmax(out);
    }

    /**
     * The loop of `forward_prop`, from the state `a0`, `ls`, `cs`, `gs` it
     * starts in: runs layers until `n` have run and returns the last affine
     * output computed.  That is the affine output of layer `n` when the loop
     * breaks there, and the output of the softmax layer (its own affine
     * output) when every layer has run.
     */
    method RunLayers(ghost a0: seq<Mat>, ghost ins: seq<Mat>, ghost ls: seq<LayerValue>, ghost cs: seq<Cache>,
                     ghost gs: seq<LayerGrads>, ghost n: nat) returns (out: Mat)
      requires Valid() && |a0| >= 1 && |a0[|a0| - 1]| == T * bsize && n == Reached(|a0|)
      requires ls == Values() && ins == Activations(ops, hps.nl, ls, a0[|a0| - 1], n, T, bsize)
      requires ForwardLoop(a0, ins, ls, cs, gs, 0)
      modifies this, layers
      ensures ForwardLoop(a0, ins, ls, cs, gs, n)
      ensures out == if n < |layers| then Affine(ops, ls[n], ins[n]) else ins[n]
      ensures layers == old(layers) && layerSpecs == old(layerSpecs) && params == old(params)
      ensures grads == old(grads) && T == old(T) && bsize == old(bsize)
    {
      out := [];
      var k := 0;
      while k < |layers|
        invariant k <= n
        invariant Valid() && ls == Values() && ForwardLoop(a0, ins, ls, cs, gs, k)
        invariant |acts| == |a0| + k
        invariant k > 0 ==> out == Affine(ops, ls[k - 1], ins[k - 1])
        invariant layers == old(layers) && layerSpecs == old(layerSpecs) && params == old(params)
        invariant grads == old(grads) && T == old(T) && bsize == old(bsize)
      {
        var layer := layers[k];
        out := ops.addBias(ops.mult(layer.W, acts[|acts| - 1]), layer.b);
        if |acts| == hps.hiddenLayers + 1 {
          return;
        }
        ForwardLayer(k, out, a0, ins, ls, cs, gs);
        k := k + 1;
      }
      assert ls[n - 1].spec == LayerFlags(hps, n - 1);
    }

    /** The gradients each layer holds. */
    function Gradients(): (gs: seq<LayerGrads>)
      reads this`layers, layers
      ensures |gs| == |layers|
      ensures forall k :: 0 <= k < |layers| ==> gs[k] == layers[k].Grads()
    {
      var ls := layers;
      seq(|ls|, k requires 0 <= k < |ls| reads ls => ls[k].Grads())
    }

    /**
     * `forward_prop` after running layers `0 .. k-1`, started with the
     * activations `a0`: the outputs `ins[1 .. k]` are cached after them,
     * layers below `k` hold the hidden states of their run and the others
     * their earlier ones (`cs`), and every gradient is as it was (`gs`).
     */
    ghost predicate ForwardLoop(a0: seq<Mat>, ins: seq<Mat>, ls: seq<LayerValue>, cs: seq<Cache>,
                                gs: seq<LayerGrads>, k: nat)
      reads this, layers
    {
      && ops.Valid() && AllWellFormed(ls)
      && |ls| == |layers| && |cs| == |layers| && |gs| == |layers|
      && k < |ins| && k <= |layers|
      && (forall j :: 0 <= j < |ins| ==> |ins[j]| == T * bsize)
      && acts == a0 + ins[1..k + 1]
      && Caches() == RanUpTo(ops, hps.nl, ls, cs, ins, k, T, bsize)
      && Gradients() == gs
    }

    /** One pass of the loop of `forward_prop` that does not break: runs layer `k` and caches its output. */
    method ForwardLayer(k: nat, out: Mat, ghost a0: seq<Mat>, ghost ins: seq<Mat>, ghost ls: seq<LayerValue>,
                        ghost cs: seq<Cache>, ghost gs: seq<LayerGrads>)
      requires Valid() && ls == Values() && ForwardLoop(a0, ins, ls, cs, gs, k)
      requires k < |layers| && k + 1 < |ins| && out == Affine(ops, ls[k], ins[k])
      requires ins[k + 1] == LayerOut(ops, hps.nl, ls[k], out, T, bsize)
      modifies this, layers[k]
      ensures ForwardLoop(a0, ins, ls, cs, gs, k + 1)
      ensures layers == old(layers) && layerSpecs == old(layerSpecs) && params == old(params)
      ensures grads == old(grads) && T == old(T) && bsize == old(bsize)
    {
      var layer := layers[k];
      ghost var before := Caches();
      var h := LayerForward(layer, out);
      acts := acts + [h];
      assert ins[1..k + 2] == ins[1..k + 1] + [ins[k + 1]];
      assert Caches() == before[k := layer.Cached()];
      RanUpToStep(ops, hps.nl, ls, cs, ins, k, T, bsize);
    }

    /**
     * `bprop_recur`: the deltas one recurrent direction of `layer` hands
     * down from the deltas `e` at its hidden states; the direction's weight
     * gradient is overwritten with the pairing of those deltas with the
     * hidden states.
     */
    method BpropRecur(layer: Layer, e: Mat, reverse: bool) returns (r: Mat)
      requires ops.Valid() && layer.Value().WellFormed() && |e| == T * bsize && T > 0
      requires if reverse then layer.bRecur && layer.bActs.Some? && |layer.bActs.value| == T * bsize
               else layer.fRecur && layer.fActs.Some? && |layer.fActs.value| == T * bsize
      modifies layer
      ensures layer.dW == old(layer.dW) && layer.db == old(layer.db) && layer.Cached() == old(layer.Cached())
      ensures r == RecurBack(ops, hps.nl, layer.Value(), layer.Cached(), e, T, bsize, reverse)
      ensures layer.dWf
                == if reverse then old(layer.dWf)
                   else Some(RecurWeightGrad(ops, hps.nl, layer.Value(), layer.Cached(), e, T, bsize, false))
      ensures layer.dWb
                == if reverse then Some(RecurWeightGrad(ops, hps.nl, layer.Value(), layer.Cached(), e, T, bsize, true))
                   else old(layer.dWb)
    {
      var W := if reverse then layer.Wb.value else layer.Wf.value;
      var a := if reverse then layer.bActs.value else layer.fActs.value;
      var dW;
      r, dW := Backward(ops, hps.nl, W, e, a, T, bsize, reverse);
      if reverse {
        layer.dWb := Some(dW);
      } else {
        layer.dWf := Some(dW);
      }
    }

    /**
     * The recurrent part of one pass of `backprop`: the deltas at the
     * pre-activation of `layer` from the deltas `e` at its output and its
     * output `act`, running each enabled recurrent direction backwards.
     */
    method LayerBackward(layer: Layer, e: Mat, act: Mat) returns (r: Mat)
      requires ops.Valid() && layer.Value().WellFormed() && |e| == T * bsize && |act| == T * bsize && T > 0
      requires layer.fRecur ==> layer.fActs.Some? && |layer.fActs.value| == T * bsize
      requires layer.bRecur ==> layer.bActs.Some? && |layer.bActs.value| == T * bsize
      modifies layer
      ensures layer.Cached() == old(layer.Cached())
      ensures r == LayerBack(ops, hps.nl, layer.Value(), layer.Cached(), e, act, T, bsize)
      ensures layer.Grads() == RecurGrads(ops, hps.nl, layer.Value(), layer.Cached(), e, T, bsize, old(layer.Grads()))
    {
      var deltasF, deltasB: Mat;
      if layer.fRecur {
        deltasF := BpropRecur(layer, e, false);
      }
      if layer.bRecur {
        deltasB := BpropRecur(layer, e, true);
      }
      if layer.fRecur && layer.bRecur {
        r := ops.add(deltasF, deltasB);
      } else if layer.fRecur {
        r := deltasF;
      } else if layer.bRecur {
        r := deltasB;
      } else {
        r := ops.hadamard(e, ops.getNlGrad(hps.nl, act));
      }
    }

    /**
     * `backprop`: from the cost's deltas `d` at the softmax layer's
     * pre-activation, walks the layers from the top down; each layer's weight
     * and bias gradients pair its deltas with its cached input, and the
     * deltas pass through its weight and then back through the layer below.
     * The forward pass's activations and hidden states are left as they are.
     */
    method Backprop(d: Mat)
      requires Valid() && BackReady(ops, Values(), Caches(), acts, T, bsize) && |d| == T * bsize && T > 0
      modifies layers
      ensures Caches() == old(Caches())
      ensures Gradients() == GradsFrom(ops, hps.nl, Values(), Caches(), acts, d, T, bsize, old(Gradients()), 0)
    {
      ghost var ls, cs, gs := Values(), Caches(), Gradients();
      var deltas := d;
      var k: nat := |layers|;
      GradsFromNone(ops, hps.nl, ls, cs, acts, d, T, bsize, gs);
      while k > 0
        invariant BackLoop(ls, cs, gs, d, k)
        invariant k > 0 ==> deltas == DeltasAt(ops, hps.nl, ls, cs, acts, d, T, bsize, k - 1)
      {
        k := k - 1;
        deltas := BackLayer(k, deltas, ls, cs, gs, d);
      }
    }

    /**
     * `backprop` once it has handled layers `k` and up, started with the
     * layers `ls`, their hidden states `cs` and their gradients `gs`: the
     * hidden states are as they were and the gradients are those of
     * `GradsFrom`.
     */
    ghost predicate BackLoop(ls: seq<LayerValue>, cs: seq<Cache>, gs: seq<LayerGrads>, d: Mat, k: nat)
      reads this, layers
    {
      && Valid() && ls == Values() && cs == Caches() && BackReady(ops, ls, cs, acts, T, bsize)
      && |d| == T * bsize && T > 0 && |gs| == |ls| && k <= |ls|
      && Gradients() == GradsFrom(ops, hps.nl, ls, cs, acts, d, T, bsize, gs, k)
    }

    /**
     * One pass of `backprop`: sets the gradients of layer `k` from its deltas
     * `deltas`, and below the top returns the deltas of layer `k - 1`.
     */
    method BackLayer(k: nat, deltas: Mat, ghost ls: seq<LayerValue>, ghost cs: seq<Cache>, ghost gs: seq<LayerGrads>,
                     ghost d: Mat) returns (next: Mat)
      requires BackLoop(ls, cs, gs, d, k + 1)
      requires deltas == DeltasAt(ops, hps.nl, ls, cs, acts, d, T, bsize, k)
      modifies layers
      ensures BackLoop(ls, cs, gs, d, k)
      ensures k > 0 ==> next == DeltasAt(ops, hps.nl, ls, cs, acts, d, T, bsize, k - 1)
    {
      GradsFromStep(ops, hps.nl, ls, cs, acts, d, T, bsize, gs, k);
      DenseStep(k, deltas, ls, cs, d);
      next := deltas;
      if k > 0 {
        next := RecurStep(k, deltas, ls, cs, d);
      }
    }

    /** The weight and bias gradients of layer `k`, from its deltas and its cached input. */
    method DenseStep(k: nat, deltas: Mat, ghost ls: seq<LayerValue>, ghost cs: seq<Cache>, ghost d: Mat)
      requires Valid() && ls == Values() && cs == Caches() && BackReady(ops, ls, cs, acts, T, bsize)
      requires |d| == T * bsize && k < |ls|
      requires deltas == DeltasAt(ops, hps.nl, ls, cs, acts, d, T, bsize, k)
      modifies layers[k]
      ensures Caches() == cs
      ensures Gradients() == old(Gradients())[k := DenseGradsAt(ops, hps.nl, ls, cs, acts, d, T, bsize, k, old(Gradients())[k])]
    {
      ghost var before := Gradients();
      var layer := layers[k];
      layer.dW := ops.divide(ops.multNT(deltas, acts[k]), bsize);
      layer.db := ops.divide(ops.rowSum(deltas), bsize);
      assert Caches() == cs;
      assert Gradients() == before[k := layer.Grads()];
    }

    /**
     * The deltas arriving at the output of layer `k - 1` through the weight
     * of layer `k`, taken back through layer `k - 1`, whose recurrent
     * gradients are set on the way.
     */
    method RecurStep(k: nat, deltas: Mat, ghost ls: seq<LayerValue>, ghost cs: seq<Cache>, ghost d: Mat)
      returns (next: Mat)
      requires Valid() && ls == Values() && cs == Caches() && BackReady(ops, ls, cs, acts, T, bsize)
      requires |d| == T * bsize && T > 0 && 0 < k < |ls|
      requires deltas == DeltasAt(ops, hps.nl, ls, cs, acts, d, T, bsize, k)
      modifies layers[k - 1]
      ensures Caches() == cs
      ensures Gradients()
                == old(Gradients())[k - 1 := RecurGradsAt(ops, hps.nl, ls, cs, acts, d, T, bsize, k - 1, old(Gradients())[k - 1])]
      ensures next == DeltasAt(ops, hps.nl, ls, cs, acts, d, T, bsize, k - 1)
    {
      ghost var before := Gradients();
      var incoming := ops.multT(layers[k].W, deltas);
      var below := layers[k - 1];
      next := LayerBackward(below, incoming, acts[k]);
      assert Caches() == cs;
      assert Gradients() == before[k - 1 := below.Grads()];
    }

    /**
     * The activations a forward pass from the batch `data` alone caches: the
     * batch, then the output of each hidden layer.
     */
    ghost function Inputs(data: Mat): (ins: seq<Mat>)
      requires Valid() && |data| == T * bsize
      reads this`layers, this`T, this`bsize
      ensures |ins| == |layers| && forall j :: 0 <= j < |ins| ==> |ins[j]| == T * bsize
    {
      Activations(ops, hps.nl, Values(), data, hps.hiddenLayers, T, bsize)
    }

    /** The class probabilities of that pass: the softmax of the softmax layer's affine output. */
    ghost function Probs(data: Mat): Mat
      requires Valid() && |data| == T * bsize
      reads this`layers, this`T, this`bsize
    {
      ops.softmax(Affine(ops, Values()[hps.hiddenLayers], Inputs(data)[hps.hiddenLayers]))
    }

    /**
     * The forward half of `cost_and_grad`: caches the batch as the only
     * activation and runs `forward_prop`, which then runs every hidden layer.
     */
    method ForwardFrom(data: Mat) returns (probs: Mat)
      requires Valid() && |data| == T * bsize
      modifies this, layers
      ensures layers == old(layers) && layerSpecs == old(layerSpecs) && params == old(params)
      ensures grads == old(grads) && T == old(T) && bsize == old(bsize)
      ensures Valid() && Gradients() == old(Gradients())
      ensures acts == Inputs(data) && probs == Probs(data)
      ensures Caches() == RanUpTo(ops, hps.nl, Values(), old(Caches()), Inputs(data), hps.hiddenLayers, T, bsize)
    {
      ghost var cs, gs := Caches(), Gradients();
      ghost var ins := Inputs(data);
      acts := [data];
      assert Caches() == cs && Gradients() == gs && Inputs(data) == ins;
      assert Reached(1) == hps.hiddenLayers;
      assert [data] + ins[1..] == ins;
      probs := ForwardProp();
    }

    /**
     * `cost_and_grad`: one step on the time-major batch `data`.  Without
     * labels the step returns the probabilities.  Otherwise it scores them;
     * the cost is the total over the batch divided by the number of examples,
     * and with `back` the backward pass runs from the scoring's deltas and
     * the cost is further divided by the number of timesteps.  Gradients
     * change only then.
     */
    method CostAndGrad(data: Mat, labels: Option<seq<seq<nat>>>, back: bool) returns (res: StepResult)
      requires Valid() && T > 0 && bsize > 0 && |data| == T * bsize
      modifies this, layers
      ensures layers == old(layers) && layerSpecs == old(layerSpecs) && params == old(params)
      ensures grads == old(grads) && T == old(T) && bsize == old(bsize)
      ensures Valid() && acts == Inputs(data)
      ensures Caches() == RanUpTo(ops, hps.nl, Values(), old(Caches()), Inputs(data), hps.hiddenLayers, T, bsize)
      ensures labels.None? ==> res == Unlabelled(Probs(data))
      ensures labels.Some? && !LabelsFit(Probs(data), labels.value, bsize) ==> res == LabelIndexError
      ensures labels.Some? && LabelsFit(Probs(data), labels.value, bsize) ==>
                var cost := Total(CostTable(ops, Probs(data), labels.value, T, bsize)) / (bsize as real);
                res == if back then Trained(cost / (T as real), grads) else Evaluated(cost, Probs(data))
      ensures res.Trained? ==>
                Gradients() == GradsFrom(ops, hps.nl, Values(), Caches(), acts, Deltas(Probs(data), labels.value, T, bsize),
                                         T, bsize, old(Gradients()), 0)
      ensures !res.Trained? ==> Gradients() == old(Gradients())
    {
      var probs := ForwardFrom(data);
      if labels.None? {
        return Unlabelled(probs);
      }
      ghost var ls, ins, cs, gs := Values(), Inputs(data), Caches(), Gradients();
      assert probs == Probs(data);
      RanReady(ops, hps.nl, ls, old(Caches()), ins, hps.hiddenLayers, T, bsize);
      res := ScoreAndBack(probs, labels.value, back);
      assert Values() == ls && Inputs(data) == ins && Probs(data) == probs && Caches() == cs;
    }

    /**
     * The labelled half of `cost_and_grad`: scores the probabilities `probs`
     * against `labels` and, with `back`, runs the backward pass from the
     * scoring's deltas.
     */
    method ScoreAndBack(probs: Mat, labels: seq<seq<nat>>, back: bool) returns (res: StepResult)
      requires Valid() && T > 0 && bsize > 0 && |probs| == T * bsize
      requires BackReady(ops, Values(), Caches(), acts, T, bsize)
      modifies layers
      ensures Caches() == old(Caches())
      ensures !LabelsFit(probs, labels, bsize) ==> res == LabelIndexError
      ensures LabelsFit(probs, labels, bsize) ==>
                var cost := Total(CostTable(ops, probs, labels, T, bsize)) / (bsize as real);
                res == if back then Trained(cost / (T as real), grads) else Evaluated(cost, probs)
      ensures res.Trained? ==>
                Gradients() == GradsFrom(ops, hps.nl, Values(), Caches(), acts, Deltas(probs, labels, T, bsize),
                                         T, bsize, old(Gradients()), 0)
      ensures !res.Trained? ==> Gradients() == old(Gradients())
    {
      var scores := CrossEnt(ops, probs, labels, T, bsize);
      if scores.IndexError? {
        return LabelIndexError;
      }
      var cost := Total(scores.costs) / (bsize as real);
      if !back {
        return Evaluated(cost, probs);
      }
      Backprop(scores.deltas);
      res := Trained(cost / (T as real), grads);
    }
}
}
