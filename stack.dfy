/**
 * The layer stack as values: what each layer computes from its input in the
 * forward pass, and what delta it hands to the layer below in the backward
 * pass.  The network's methods are proved against these definitions.
 */
module Stack {
  import opened Numerics
  import opened TimeMajor
  import opened Topology
  import opened Recurrence

  /** A layer's flags and weights; the core never changes them. */
  datatype LayerValue = LayerValue(spec: LayerSpec, W: Mat, b: Mat, Wf: Option<Mat>, Wb: Option<Mat>)
  {
    /** A recurrent direction is enabled exactly when its weight exists. */
    predicate WellFormed() {
      (spec.fRecur <==> Wf.Some?) && (spec.bRecur <==> Wb.Some?)
    }
  }

  /** The hidden states the forward pass left on a layer, per direction. */
  datatype Cache = Cache(fActs: Option<Mat>, bActs: Option<Mat>)

  predicate AllWellFormed(ls: seq<LayerValue>) {
    forall k :: 0 <= k < |ls| ==> ls[k].WellFormed()
  }

  /** A layer's gradients: of the weight, the bias and each recurrent weight. */
  datatype LayerGrads = LayerGrads(dW: Mat, db: Mat, dWf: Option<Mat>, dWb: Option<Mat>)

  /** A named nonlinearity keeps the column count. */
  lemma NlKeepsWidth(ops: Ops, name: string)
    requires ops.Valid()
    ensures KeepsWidth(ops.getNl(name))
  {
    forall m: Mat
      ensures |ops.getNl(name)(m)| == |m|
    {
    }
  }

  /** `mult(layer.W, x) + layer.b`: one column of output per column of input. */
  function Affine(ops: Ops, l: LayerValue, x: Mat): (y: Mat)
    requires ops.Valid()
    ensures |y| == |x|
  {
    ops.addBias(ops.mult(l.W, x), l.b)
  }

  /** The hidden states of one recurrent direction of `l`, driven by its affine output `out`. */
  function Recur(ops: Ops, nlName: string, l: LayerValue, out: Mat, T: nat, bsize: nat, reverse: bool): (h: Mat)
    requires ops.Valid() && l.WellFormed() && |out| == T * bsize
    requires if reverse then l.spec.bRecur else l.spec.fRecur
    ensures |h| == T * bsize
  {
    NlKeepsWidth(ops, nlName);
    RecurForward(ops, ops.getNl(nlName), if reverse then l.Wb.value else l.Wf.value, out, T, bsize, reverse)
  }

  /**
   * The hidden states a layer holds once the forward pass has run it on
   * affine output `out`: new states for each enabled direction, the earlier
   * ones otherwise.
   */
  function Ran(ops: Ops, nlName: string, l: LayerValue, c: Cache, out: Mat, T: nat, bsize: nat): Cache
    requires ops.Valid() && l.WellFormed() && |out| == T * bsize
  {
    Cache(if l.spec.fRecur then Some(Recur(ops, nlName, l, out, T, bsize, false)) else c.fActs,
          if l.spec.bRecur then Some(Recur(ops, nlName, l, out, T, bsize, true)) else c.bActs)
  }

  /**
   * What a layer passes up, given its affine output `out`: the sum of both
   * recurrent directions when it has both, the one direction it has, the
   * nonlinearity of `out` for a plain hidden layer, and `out` itself for the
   * softmax layer (whose softmax is taken by the caller).
   */
  function LayerOut(ops: Ops, nlName: string, l: LayerValue, out: Mat, T: nat, bsize: nat): (h: Mat)
    requires ops.Valid() && l.WellFormed() && |out| == T * bsize
    ensures |h| == T * bsize
  {
    NlKeepsWidth(ops, nlName);
    if l.spec.fRecur && l.spec.bRecur then
      ops.add(Recur(ops, nlName, l, out, T, bsize, false), Recur(ops, nlName, l, out, T, bsize, true))
    else if l.spec.fRecur then Recur(ops, nlName, l, out, T, bsize, false)
    else if l.spec.bRecur then Recur(ops, nlName, l, out, T, bsize, true)
    else if !l.spec.softmax then ops.getNl(nlName)(out)
    else out
  }

  /**
   * The hidden states of layers `ls` once the first `n` of them have run on
   * the activations `ins`: a layer below `n` holds what its run on its affine
   * output leaves behind, every other layer keeps its state from `cs`.
   */
  function RanUpTo(ops: Ops, nlName: string, ls: seq<LayerValue>, cs: seq<Cache>, ins: seq<Mat>, n: nat,
                   T: nat, bsize: nat): (r: seq<Cache>)
    requires ops.Valid() && AllWellFormed(ls) && |cs| == |ls| && n <= |ls| && n <= |ins|
    requires forall j :: 0 <= j < |ins| ==> |ins[j]| == T * bsize
    ensures |r| == |cs|
    ensures forall j :: 0 <= j < |cs| ==>
      r[j] == if j < n then Ran(ops, nlName, ls[j], cs[j], Affine(ops, ls[j], ins[j]), T, bsize) else cs[j]
  {
    seq(|cs|, j requires 0 <= j < |cs| =>
      if j < n then Ran(ops, nlName, ls[j], cs[j], Affine(ops, ls[j], ins[j]), T, bsize) else cs[j])
  }

  /** Running one more layer updates that layer's state alone. */
  lemma RanUpToStep(ops: Ops, nlName: string, ls: seq<LayerValue>, cs: seq<Cache>, ins: seq<Mat>, n: nat,
                    T: nat, bsize: nat)
    requires ops.Valid() && AllWellFormed(ls) && |cs| == |ls| && n < |ls| && n < |ins|
    requires forall j :: 0 <= j < |ins| ==> |ins[j]| == T * bsize
    ensures RanUpTo(ops, nlName, ls, cs, ins, n + 1, T, bsize)
         == RanUpTo(ops, nlName, ls, cs, ins, n, T, bsize)[n := Ran(ops, nlName, ls[n], cs[n], Affine(ops, ls[n], ins[n]), T, bsize)]
  {
  }

  /**
   * The activations of layers `0 .. n-1` applied in turn to `x`: `x` itself,
   * then each layer's output computed from the activation before it.
   */
  function Activations(ops: Ops, nlName: string, ls: seq<LayerValue>, x: Mat, n: nat, T: nat, bsize: nat)
    : (acts: seq<Mat>)
    requires ops.Valid() && AllWellFormed(ls) && n <= |ls| && |x| == T * bsize
    ensures |acts| == n + 1 && acts[0] == x
    ensures forall k :: 0 <= k <= n ==> |acts[k]| == T * bsize
    ensures forall k :: 0 <= k < n ==>
      acts[k + 1] == LayerOut(ops, nlName, ls[k], Affine(ops, ls[k], acts[k]), T, bsize)
    decreases n
  {
    if n == 0 then [x]
    else
      var before := Activations(ops, nlName, ls, x, n - 1, T, bsize);
      before + [LayerOut(ops, nlName, ls[n - 1], Affine(ops, ls[n - 1], before[n - 1]), T, bsize)]
  }

  /**
   * On a network built from `hps`, layer `k` outputs: both recurrent
   * directions summed (bidirectional) or the forward one alone, for the
   * recurrent layer; the nonlinearity of its affine output, for any other
   * hidden layer; its affine output unchanged, for the softmax layer.
   */
  lemma LayerOutByRole(ops: Ops, nlName: string, hps: Hyperparams, l: LayerValue, k: nat, out: Mat, T: nat, bsize: nat)
    requires ops.Valid() && l.WellFormed() && |out| == T * bsize
    requires l.spec == LayerFlags(hps, k)
    ensures k >= hps.hiddenLayers ==> LayerOut(ops, nlName, l, out, T, bsize) == out
    ensures k < hps.hiddenLayers && k != hps.recurrentLayer - 1 ==>
      LayerOut(ops, nlName, l, out, T, bsize) == ops.getNl(nlName)(out)
    ensures k < hps.hiddenLayers && k == hps.recurrentLayer - 1 ==>
      LayerOut(ops, nlName, l, out, T, bsize)
        == if hps.bidirectional then
             ops.add(Recur(ops, nlName, l, out, T, bsize, false), Recur(ops, nlName, l, out, T, bsize, true))
           else Recur(ops, nlName, l, out, T, bsize, false)
  {
  }

  // ---------------------------------------------------------------------
  // Backward

  /**
   * What the backward pass needs: one cached activation per layer (the
   * input of that layer), all `T * bsize` columns wide, and each enabled
   * recurrent direction's hidden states.
   */
  ghost predicate BackReady(ops: Ops, ls: seq<LayerValue>, cs: seq<Cache>, acts: seq<Mat>, T: nat, bsize: nat) {
    && ops.Valid() && AllWellFormed(ls)
    && |cs| == |ls| && |acts| == |ls|
    && (forall k :: 0 <= k < |acts| ==> |acts[k]| == T * bsize)
    && (forall k :: 0 <= k < |ls| && ls[k].spec.fRecur ==>
          cs[k].fActs.Some? && |cs[k].fActs.value| == T * bsize)
    && (forall k :: 0 <= k < |ls| && ls[k].spec.bRecur ==>
          cs[k].bActs.Some? && |cs[k].bActs.value| == T * bsize)
  }

  /**
   * A forward pass that has run every recurrent layer leaves what the
   * backward pass needs: each enabled direction holds its hidden states.
   */
  lemma RanReady(ops: Ops, nlName: string, ls: seq<LayerValue>, cs: seq<Cache>, ins: seq<Mat>, n: nat,
                 T: nat, bsize: nat)
    requires ops.Valid() && AllWellFormed(ls) && |cs| == |ls| && |ins| == |ls| && n <= |ls|
    requires forall j :: 0 <= j < |ins| ==> |ins[j]| == T * bsize
    requires forall j :: n <= j < |ls| ==> !ls[j].spec.fRecur && !ls[j].spec.bRecur
    ensures BackReady(ops, ls, RanUpTo(ops, nlName, ls, cs, ins, n, T, bsize), ins, T, bsize)
  {
  }

  /**
   * The deltas one recurrent direction of `l` hands down, from the deltas
   * `e` at its hidden states.  This is the corrected recurrence, with the
   * terminal block scaled like every other block.
   */
  function RecurBack(ops: Ops, nlName: string, l: LayerValue, c: Cache, e: Mat, T: nat, bsize: nat, reverse: bool)
    : (r: Mat)
    requires ops.Valid() && l.WellFormed() && |e| == T * bsize
    requires if reverse then l.spec.bRecur && c.bActs.Some? && |c.bActs.value| == T * bsize
             else l.spec.fRecur && c.fActs.Some? && |c.fActs.value| == T * bsize
    ensures |r| == T * bsize
  {
    if reverse then RecurBackward(ops, nlName, l.Wb.value, e, c.bActs.value, T, bsize, true)
    else RecurBackward(ops, nlName, l.Wf.value, e, c.fActs.value, T, bsize, false)
  }

  /**
   * The gradient of one recurrent direction's weight, pairing the deltas
   * that direction hands down with its hidden states.
   */
  function RecurWeightGrad(ops: Ops, nlName: string, l: LayerValue, c: Cache, e: Mat, T: nat, bsize: nat, reverse: bool)
    : Mat
    requires ops.Valid() && l.WellFormed() && |e| == T * bsize && T > 0
    requires if reverse then l.spec.bRecur && c.bActs.Some? && |c.bActs.value| == T * bsize
             else l.spec.fRecur && c.fActs.Some? && |c.fActs.value| == T * bsize
  {
    var a := if reverse then c.bActs.value else c.fActs.value;
    MulMono(1, T, bsize);
    RecurGrad(ops, RecurBack(ops, nlName, l, c, e, T, bsize, reverse), a, bsize, reverse)
  }

  /**
   * The deltas at the pre-activation of layer `l`, given the deltas `e` at
   * its output and its output `act`: the recurrent directions' deltas
   * (summed when there are two), or `e` scaled by the nonlinearity's
   * gradient for a plain layer.
   */
  function LayerBack(ops: Ops, nlName: string, l: LayerValue, c: Cache, e: Mat, act: Mat, T: nat, bsize: nat)
    : (r: Mat)
    requires ops.Valid() && l.WellFormed() && |e| == T * bsize && |act| == T * bsize
    requires l.spec.fRecur ==> c.fActs.Some? && |c.fActs.value| == T * bsize
    requires l.spec.bRecur ==> c.bActs.Some? && |c.bActs.value| == T * bsize
    ensures |r| == T * bsize
  {
    if l.spec.fRecur && l.spec.bRecur then
      ops.add(RecurBack(ops, nlName, l, c, e, T, bsize, false), RecurBack(ops, nlName, l, c, e, T, bsize, true))
    else if l.spec.fRecur then RecurBack(ops, nlName, l, c, e, T, bsize, false)
    else if l.spec.bRecur then RecurBack(ops, nlName, l, c, e, T, bsize, true)
    else ops.hadamard(e, ops.getNlGrad(nlName, act))
  }

  /**
   * The deltas at the pre-activation of layer `k`: the cost's deltas `d` at
   * the top layer; below it, the deltas the layer above hands down through
   * its weight, taken back through layer `k`'s output.
   */
  function DeltasAt(ops: Ops, nlName: string, ls: seq<LayerValue>, cs: seq<Cache>, acts: seq<Mat>, d: Mat,
                    T: nat, bsize: nat, k: nat): (e: Mat)
    requires BackReady(ops, ls, cs, acts, T, bsize) && |d| == T * bsize && k < |ls|
    ensures |e| == T * bsize
    decreases |ls| - k
  {
    if k == |ls| - 1 then d
    else LayerBack(ops, nlName, ls[k], cs[k], Incoming(ops, nlName, ls, cs, acts, d, T, bsize, k), acts[k + 1], T, bsize)
  }

  /** `mult(W.T, deltas)` of layer `k + 1`: the deltas arriving at layer `k`'s output. */
  function Incoming(ops: Ops, nlName: string, ls: seq<LayerValue>, cs: seq<Cache>, acts: seq<Mat>, d: Mat,
                    T: nat, bsize: nat, k: nat): (e: Mat)
    requires BackReady(ops, ls, cs, acts, T, bsize) && |d| == T * bsize && k + 1 < |ls|
    ensures |e| == T * bsize
    decreases |ls| - k, 0
  {
    ops.multT(ls[k + 1].W, DeltasAt(ops, nlName, ls, cs, acts, d, T, bsize, k + 1))
  }

  /** `dW = mult(deltas, acts.T) / bsize` */
  function WeightGrad(ops: Ops, e: Mat, act: Mat, bsize: nat): Mat {
    ops.divide(ops.multNT(e, act), bsize)
  }

  /** `db = deltas.sum(axis=-1).reshape((-1, 1)) / bsize` */
  function BiasGrad(ops: Ops, e: Mat, bsize: nat): Mat {
    ops.divide(ops.rowSum(e), bsize)
  }

  /**
   * On a network built from `hps`, the deltas handed to layer `k` below the
   * top mirror the forward pass: through both recurrent directions (summed)
   * or the forward one for the recurrent layer, and through the
   * nonlinearity's gradient for every other hidden layer.
   */
  lemma LayerBackByRole(ops: Ops, nlName: string, hps: Hyperparams, l: LayerValue, c: Cache, e: Mat, act: Mat,
                        k: nat, T: nat, bsize: nat)
    requires ops.Valid() && l.WellFormed() && |e| == T * bsize && |act| == T * bsize
    requires l.spec == LayerFlags(hps, k) && k < hps.hiddenLayers
    requires l.spec.fRecur ==> c.fActs.Some? && |c.fActs.value| == T * bsize
    requires l.spec.bRecur ==> c.bActs.Some? && |c.bActs.value| == T * bsize
    ensures k != hps.recurrentLayer - 1 ==>
      LayerBack(ops, nlName, l, c, e, act, T, bsize) == ops.hadamard(e, ops.getNlGrad(nlName, act))
    ensures k == hps.recurrentLayer - 1 ==>
      LayerBack(ops, nlName, l, c, e, act, T, bsize)
        == if hps.bidirectional then
             ops.add(RecurBack(ops, nlName, l, c, e, T, bsize, false), RecurBack(ops, nlName, l, c, e, T, bsize, true))
           else RecurBack(ops, nlName, l, c, e, T, bsize, false)
  {
  }

  /**
   * Gradients `g` of layer `l` after its recurrent directions have been run
   * backwards from the deltas `e` at its output: each enabled direction's
   * weight gradient pairs the deltas that direction hands down with its
   * hidden states; everything else stays as it was.
   */
  function RecurGrads(ops: Ops, nlName: string, l: LayerValue, c: Cache, e: Mat, T: nat, bsize: nat, g: LayerGrads)
    : LayerGrads
    requires ops.Valid() && l.WellFormed() && |e| == T * bsize && T > 0
    requires l.spec.fRecur ==> c.fActs.Some? && |c.fActs.value| == T * bsize
    requires l.spec.bRecur ==> c.bActs.Some? && |c.bActs.value| == T * bsize
  {
    g.(dWf := if l.spec.fRecur then Some(RecurWeightGrad(ops, nlName, l, c, e, T, bsize, false)) else g.dWf,
       dWb := if l.spec.bRecur then Some(RecurWeightGrad(ops, nlName, l, c, e, T, bsize, true)) else g.dWb)
  }

  /**
   * Gradients `g` of layer `j` after the backward pass has run its recurrent
   * directions, which it does for every layer below the top, on the deltas
   * arriving at the layer's output.
   */
  function RecurGradsAt(ops: Ops, nlName: string, ls: seq<LayerValue>, cs: seq<Cache>, acts: seq<Mat>, d: Mat,
                        T: nat, bsize: nat, j: nat, g: LayerGrads): LayerGrads
    requires BackReady(ops, ls, cs, acts, T, bsize) && |d| == T * bsize && T > 0 && j < |ls|
  {
    if j + 1 < |ls| then RecurGrads(ops, nlName, ls[j], cs[j], Incoming(ops, nlName, ls, cs, acts, d, T, bsize, j), T, bsize, g)
    else g
  }

  /**
   * Gradients `g` of layer `j` after the backward pass has set its weight
   * and bias gradients from the deltas at its pre-activation and its input
   * `acts[j]`.
   */
  function DenseGradsAt(ops: Ops, nlName: string, ls: seq<LayerValue>, cs: seq<Cache>, acts: seq<Mat>, d: Mat,
                        T: nat, bsize: nat, j: nat, g: LayerGrads): LayerGrads
    requires BackReady(ops, ls, cs, acts, T, bsize) && |d| == T * bsize && j < |ls|
  {
    var e := DeltasAt(ops, nlName, ls, cs, acts, d, T, bsize, j);
    g.(dW := WeightGrad(ops, e, acts[j], bsize), db := BiasGrad(ops, e, bsize))
  }

  /**
   * The gradients, starting from `gs`, once the backward pass has handled
   * layers `k` and up: those layers' gradients in full, the recurrent
   * gradients of layer `k - 1` (run in the same pass as layer `k`), and
   * nothing below.
   */
  function GradsFrom(ops: Ops, nlName: string, ls: seq<LayerValue>, cs: seq<Cache>, acts: seq<Mat>, d: Mat,
                     T: nat, bsize: nat, gs: seq<LayerGrads>, k: nat): (r: seq<LayerGrads>)
    requires BackReady(ops, ls, cs, acts, T, bsize) && |d| == T * bsize && T > 0 && |gs| == |ls| && k <= |ls|
    ensures |r| == |gs|
    ensures forall j :: 0 <= j < |gs| ==>
      r[j] == if j >= k then DenseGradsAt(ops, nlName, ls, cs, acts, d, T, bsize, j,
                                          RecurGradsAt(ops, nlName, ls, cs, acts, d, T, bsize, j, gs[j]))
              else if j + 1 == k then RecurGradsAt(ops, nlName, ls, cs, acts, d, T, bsize, j, gs[j])
              else gs[j]
  {
    seq(|gs|, j requires 0 <= j < |gs| =>
      if j >= k then DenseGradsAt(ops, nlName, ls, cs, acts, d, T, bsize, j,
                                  RecurGradsAt(ops, nlName, ls, cs, acts, d, T, bsize, j, gs[j]))
      else if j + 1 == k then RecurGradsAt(ops, nlName, ls, cs, acts, d, T, bsize, j, gs[j])
      else gs[j])
  }

  /** Before the backward pass has handled any layer, no gradient has changed. */
  lemma GradsFromNone(ops: Ops, nlName: string, ls: seq<LayerValue>, cs: seq<Cache>, acts: seq<Mat>, d: Mat,
                      T: nat, bsize: nat, gs: seq<LayerGrads>)
    requires BackReady(ops, ls, cs, acts, T, bsize) && |d| == T * bsize && T > 0 && |gs| == |ls|
    ensures GradsFrom(ops, nlName, ls, cs, acts, d, T, bsize, gs, |ls|) == gs
  {
  }

  /**
   * Handling layer `k` sets its weight and bias gradients and runs the
   * recurrent directions of layer `k - 1`.
   */
  lemma GradsFromStep(ops: Ops, nlName: string, ls: seq<LayerValue>, cs: seq<Cache>, acts: seq<Mat>, d: Mat,
                      T: nat, bsize: nat, gs: seq<LayerGrads>, k: nat)
    requires BackReady(ops, ls, cs, acts, T, bsize) && |d| == T * bsize && T > 0 && |gs| == |ls| && k < |ls|
    ensures var before := GradsFrom(ops, nlName, ls, cs, acts, d, T, bsize, gs, k + 1);
            var dense := before[k := DenseGradsAt(ops, nlName, ls, cs, acts, d, T, bsize, k, before[k])];
            GradsFrom(ops, nlName, ls, cs, acts, d, T, bsize, gs, k)
              == if k == 0 then dense
                 else dense[k - 1 := RecurGradsAt(ops, nlName, ls, cs, acts, d, T, bsize, k - 1, gs[k - 1])]
  {
  }
}
