/**
 * The recurrent connections of one layer over the `T` blocks of a
 * time-major batch: the forward pass that turns the layer's affine output
 * into hidden states one timestep at a time, and the backward pass
 * through time that turns the incoming deltas into deltas with respect to
 * the layer's pre-activations.  A direction runs from block `0` up to
 * block `T - 1`, or, when `reverse` is set, from block `T - 1` down to `0`.
 */
module Recurrence {
  import opened Numerics
  import opened TimeMajor

  // ---------------------------------------------------------------------
  // Order of the blocks

  /** The block handled at step `i` when walking from the end (`fromEnd`) or from the start. */
  function Visit(T: nat, fromEnd: bool, i: nat): nat
    requires i < T
  {
    if fromEnd then T - 1 - i else i
  }

  /** All `T` steps of a walk, in order. */
  function VisitOrder(T: nat, fromEnd: bool): seq<nat> {
    seq(T, i requires 0 <= i < T => Visit(T, fromEnd, i))
  }

  /**
   * A walk handles each of the `T` blocks exactly once: `0 .. T-1` from the
   * start, `T-1 .. 0` from the end.
   */
  lemma VisitsEachOnce(T: nat, fromEnd: bool)
    ensures |VisitOrder(T, fromEnd)| == T
    ensures forall i :: 0 <= i < T ==> VisitOrder(T, fromEnd)[i] < T
    ensures forall i, j :: 0 <= i < j < T ==> VisitOrder(T, fromEnd)[i] != VisitOrder(T, fromEnd)[j]
    ensures forall u :: 0 <= u < T ==> u in VisitOrder(T, fromEnd)
  {
    var order := VisitOrder(T, fromEnd);
    forall u | 0 <= u < T
      ensures u in order
    {
      var i := if fromEnd then T - 1 - u else u;
      assert order[i] == u;
    }
  }

  // ---------------------------------------------------------------------
  // Forward recurrence

  /**
   * The hidden state of block `t` for affine output `z`: the nonlinearity of
   * block `t` of `z`, plus `W` times the hidden state of the block handled
   * just before it (`t - 1` forward, `t + 1` in reverse).  The first block
   * handled has no recurrent term.
   */
  function Hidden(ops: Ops, nl: Mat -> Mat, W: Mat, z: Mat, T: nat, bsize: nat, reverse: bool, t: nat): (h: Mat)
    requires ops.Valid() && KeepsWidth(nl)
    requires |z| == T * bsize && t < T
    ensures |h| == bsize
    decreases if reverse then T - t else t
  {
    var zt := Block(z, T, bsize, t);
    if t == Visit(T, reverse, 0) then nl(zt)
    else
      var prev := if reverse then t + 1 else t - 1;
      nl(ops.add(zt, ops.mult(W, Hidden(ops, nl, W, z, T, bsize, reverse, prev))))
  }

  /** All hidden states of one direction, laid out time-major. */
  function RecurForward(ops: Ops, nl: Mat -> Mat, W: Mat, z: Mat, T: nat, bsize: nat, reverse: bool): (r: Mat)
    requires ops.Valid() && KeepsWidth(nl)
    requires |z| == T * bsize
    ensures |r| == T * bsize
    ensures forall t :: 0 <= t < T ==> Block(r, T, bsize, t) == Hidden(ops, nl, W, z, T, bsize, reverse, t)
  {
    var bs := seq(T, t requires 0 <= t < T => Hidden(ops, nl, W, z, T, bsize, reverse, t));
    FlattenBlocks(bs, bsize);
    Flatten(bs, bsize)
  }

  /** Block `t` has been handled once the first `i` steps of the forward pass are done. */
  predicate ForwardDone(T: nat, reverse: bool, i: nat, t: nat) {
    if reverse then T - i <= t else t < i
  }

  /**
   * The buffer after `i` steps of the forward pass: handled blocks hold
   * their hidden state, the others still hold the affine output.
   */
  ghost predicate ForwardState(ops: Ops, nl: Mat -> Mat, W: Mat, z: Mat, T: nat, bsize: nat, reverse: bool, i: nat, m: Mat)
    requires ops.Valid() && KeepsWidth(nl)
    requires |z| == T * bsize
  {
    && |m| == T * bsize
    && forall t :: 0 <= t < T ==>
         Block(m, T, bsize, t) == if ForwardDone(T, reverse, i, t) then Hidden(ops, nl, W, z, T, bsize, reverse, t)
                                  else Block(z, T, bsize, t)
  }

  /**
   * What step `i` of the forward pass writes over its block `t` of buffer
   * `m`: the nonlinearity of the block, after adding `W` times the
   * neighbour handled at step `i - 1` when there is one.
   */
  function StepValue(ops: Ops, nl: Mat -> Mat, W: Mat, m: Mat, T: nat, bsize: nat, reverse: bool, i: nat): (y: Mat)
    requires ops.Valid() && KeepsWidth(nl)
    requires |m| == T * bsize && i < T
    ensures |y| == bsize
  {
    var t := Visit(T, reverse, i);
    var mt := Block(m, T, bsize, t);
    if i == 0 then nl(mt)
    else nl(ops.add(mt, ops.mult(W, Block(m, T, bsize, if reverse then t + 1 else t - 1))))
  }

  /**
   * A step of the forward pass turns the buffer after `i` steps into the
   * buffer after `i + 1` steps: the value it writes is the hidden state.
   */
  lemma ForwardStep(ops: Ops, nl: Mat -> Mat, W: Mat, z: Mat, T: nat, bsize: nat, reverse: bool, i: nat, m: Mat)
    requires ops.Valid() && KeepsWidth(nl)
    requires |z| == T * bsize && i < T
    requires ForwardState(ops, nl, W, z, T, bsize, reverse, i, m)
    ensures ForwardState(ops, nl, W, z, T, bsize, reverse, i + 1,
      Splice(m, T, bsize, Visit(T, reverse, i), StepValue(ops, nl, W, m, T, bsize, reverse, i)))
  {
    var t := Visit(T, reverse, i);
    var y := StepValue(ops, nl, W, m, T, bsize, reverse, i);
    assert Block(m, T, bsize, t) == Block(z, T, bsize, t);
    assert y == Hidden(ops, nl, W, z, T, bsize, reverse, t);
  }

  /**
   * The neighbour's slice, computed from the current block's start as
   * `start + bsize` or `start - bsize`, is the neighbour's block.
   */
  lemma NeighbourFits(T: nat, bsize: nat, reverse: bool, t: nat, prev: nat, start: int, s: int)
    requires t < T && prev < T && prev == (if reverse then t + 1 else t - 1)
    requires start == t * bsize && s == (if reverse then start + bsize else start - bsize)
    ensures s == prev * bsize && 0 <= s
  {
    if reverse {
      MulSucc(t, bsize);
    } else {
      MulSucc(prev, bsize);
    }
  }

  /**
   * One pass of `fprop_recur`'s loop: the block handled at step `i` gets its
   * affine output plus `W` times the finished neighbour (none at the first
   * step), then the nonlinearity of that, written over it in place.
   */
  method ForwardBlock(ops: Ops, nl: Mat -> Mat, W: Mat, buf: array<Col>, T: nat, bsize: nat, reverse: bool, i: nat)
    returns (h: Mat)
    requires ops.Valid() && KeepsWidth(nl)
    requires i < T && buf.Length == T * bsize
    modifies buf
    ensures h == StepValue(ops, nl, W, old(buf[..]), T, bsize, reverse, i)
    ensures buf[..] == Splice(old(buf[..]), T, bsize, Visit(T, reverse, i), h)
  {
    ghost var m := buf[..];
    var t := Visit(T, reverse, i);
    StepValueCases(ops, nl, W, m, T, bsize, reverse, i);
    if i == 0 {
      h := ForwardFirst(nl, buf, T, bsize, t);
    } else {
      var prev := if reverse then t + 1 else t - 1;
      h := ForwardNext(ops, nl, W, buf, T, bsize, reverse, t, prev);
    }
  }

  /** The two shapes of `StepValue`, with the visited block and its neighbour named. */
  lemma StepValueCases(ops: Ops, nl: Mat -> Mat, W: Mat, m: Mat, T: nat, bsize: nat, reverse: bool, i: nat)
    requires ops.Valid() && KeepsWidth(nl)
    requires |m| == T * bsize && i < T
    ensures var t := Visit(T, reverse, i);
      i == 0 ==> StepValue(ops, nl, W, m, T, bsize, reverse, i) == nl(Block(m, T, bsize, t))
    ensures var t := Visit(T, reverse, i);
      var prev := if reverse then t + 1 else t - 1;
      i > 0 ==>
        0 <= prev < T &&
        StepValue(ops, nl, W, m, T, bsize, reverse, i)
          == nl(ops.add(Block(m, T, bsize, t), ops.mult(W, Block(m, T, bsize, prev))))
  {
  }

  /** The first step: the nonlinearity of block `t`, stored over it. */
  method ForwardFirst(nl: Mat -> Mat, buf: array<Col>, T: nat, bsize: nat, t: nat) returns (h: Mat)
    requires KeepsWidth(nl)
    requires t < T && buf.Length == T * bsize
    modifies buf
    ensures h == nl(Block(old(buf[..]), T, bsize, t))
    ensures buf[..] == Splice(old(buf[..]), T, bsize, t, h)
  {
    BlockFits(t, T, bsize);
    var start := t * bsize;
    var rAct := buf[start .. start + bsize];
    assert rAct == Block(buf[..], T, bsize, t);
    h := nl(rAct);
    WriteBlock(buf, T, bsize, t, h);
  }

  /** `r_act += mult(W, r_acts[:, s:s+bsize])`, through the view of block `t`. */
  method AddRecurrent(ops: Ops, W: Mat, buf: array<Col>, T: nat, bsize: nat, t: nat, prev: nat, s: nat)
    returns (rAct: Mat)
    requires ops.Valid()
    requires t < T && prev < T && s == prev * bsize && buf.Length == T * bsize
    modifies buf
    ensures rAct == ops.add(Block(old(buf[..]), T, bsize, t), ops.mult(W, Block(old(buf[..]), T, bsize, prev)))
    ensures |rAct| == bsize
    ensures buf[..] == Splice(old(buf[..]), T, bsize, t, rAct)
  {
    ghost var m := buf[..];
    BlockFits(t, T, bsize);
    BlockFits(prev, T, bsize);
    var start := t * bsize;
    rAct := buf[start .. start + bsize];
    assert rAct == Block(m, T, bsize, t);
    assert buf[s .. s + bsize] == Block(m, T, bsize, prev);
    rAct := ops.add(rAct, ops.mult(W, buf[s .. s + bsize]));
    WriteBlock(buf, T, bsize, t, rAct);
  }

  /**
   * A step after the first: `r_act += mult(W, r_acts[:, s:s+bsize])` stores
   * block `t` plus `W` times block `prev` over block `t`, then the
   * nonlinearity of that is stored over it again.
   */
  method ForwardNext(ops: Ops, nl: Mat -> Mat, W: Mat, buf: array<Col>, T: nat, bsize: nat, reverse: bool,
                     t: nat, prev: nat)
    returns (h: Mat)
    requires ops.Valid() && KeepsWidth(nl)
    requires t < T && prev < T && prev == (if reverse then t + 1 else t - 1) && buf.Length == T * bsize
    modifies buf
    ensures h == nl(ops.add(Block(old(buf[..]), T, bsize, t), ops.mult(W, Block(old(buf[..]), T, bsize, prev))))
    ensures buf[..] == Splice(old(buf[..]), T, bsize, t, h)
  {
    ghost var m := buf[..];
    var start := t * bsize;
    var s := if reverse then start + bsize else start - bsize;
    NeighbourFits(T, bsize, reverse, t, prev, start, s);
    var rAct := AddRecurrent(ops, W, buf, T, bsize, t, prev, s);
    h := nl(rAct);
    WriteBlock(buf, T, bsize, t, h);
    SpliceTwice(m, T, bsize, t, rAct, h);
  }

  /**
   * `fprop_recur`: copies `z` into a buffer and overwrites its blocks in the
   * order of the walk, each with the hidden state computed from the block's
   * own affine output and the already finished neighbour.
   */
  method Forward(ops: Ops, nl: Mat -> Mat, W: Mat, z: Mat, T: nat, bsize: nat, reverse: bool)
    returns (r: Mat)
    requires ops.Valid() && KeepsWidth(nl)
    requires |z| == T * bsize
    ensures |r| == T * bsize
    ensures forall t :: 0 <= t < T ==> Block(r, T, bsize, t) == Hidden(ops, nl, W, z, T, bsize, reverse, t)
  {
    var buf := new Col[|z|](j requires 0 <= j < |z| => z[j]);
    assert buf[..] == z;
    var i := 0;
    while i < T
      invariant 0 <= i <= T
      invariant buf.Length == T * bsize
      invariant ForwardState(ops, nl, W, z, T, bsize, reverse, i, buf[..])
    {
      ForwardStep(ops, nl, W, z, T, bsize, reverse, i, buf[..]);
      var _ := ForwardBlock(ops, nl, W, buf, T, bsize, reverse, i);
      i := i + 1;
    }
    r := buf[..];
  }

  /**
   * The reverse direction is the forward direction run on the batch with
   * its timesteps reversed: the reverse hidden state of block `t` is the
   * forward hidden state of block `T - 1 - t` of the mirrored input.
   */
  lemma {:induction false} HiddenMirror(ops: Ops, nl: Mat -> Mat, W: Mat, z: Mat, T: nat, bsize: nat, t: nat)
    requires ops.Valid() && KeepsWidth(nl)
    requires |z| == T * bsize && t < T
    ensures |ReverseTime(z, T, bsize)| == T * bsize
    ensures Hidden(ops, nl, W, z, T, bsize, true, t)
      == Hidden(ops, nl, W, ReverseTime(z, T, bsize), T, bsize, false, T - 1 - t)
    decreases T - t
  {
    var m := ReverseTime(z, T, bsize);
    assert Block(m, T, bsize, T - 1 - t) == Block(z, T, bsize, t);
    if t < T - 1 {
      HiddenMirror(ops, nl, W, z, T, bsize, t + 1);
    }
  }

  /** `z` with its `T` blocks in the opposite order. */
  function ReverseTime(z: Mat, T: nat, bsize: nat): (m: Mat)
    requires |z| == T * bsize
    ensures |m| == T * bsize
    ensures forall t :: 0 <= t < T ==> Block(m, T, bsize, t) == Block(z, T, bsize, T - 1 - t)
  {
    var bs := seq(T, t requires 0 <= t < T => Block(z, T, bsize, T - 1 - t));
    FlattenBlocks(bs, bsize);
    Flatten(bs, bsize)
  }

  /**
   * The forward direction is causal: the hidden state of block `t` depends
   * only on blocks `0 .. t` of the affine output.
   */
  lemma {:induction false} HiddenCausal(ops: Ops, nl: Mat -> Mat, W: Mat, z1: Mat, z2: Mat, T: nat, bsize: nat, t: nat)
    requires ops.Valid() && KeepsWidth(nl)
    requires |z1| == T * bsize && |z2| == T * bsize && t < T
    requires forall u :: 0 <= u <= t ==> Block(z1, T, bsize, u) == Block(z2, T, bsize, u)
    ensures Hidden(ops, nl, W, z1, T, bsize, false, t) == Hidden(ops, nl, W, z2, T, bsize, false, t)
  {
    if t > 0 {
      HiddenCausal(ops, nl, W, z1, z2, T, bsize, t - 1);
    }
  }

  // ---------------------------------------------------------------------
  // Backward recurrence

  /** The block the backward pass starts from: the last one handled by the forward pass. */
  function Terminal(T: nat, reverse: bool): nat
    requires T > 0
  {
    Visit(T, !reverse, 0)
  }

  /**
   * Back-propagation through time, reference form: the delta with respect
   * to the pre-activation of block `t`, given incoming deltas `d` with
   * respect to the hidden states `a`.  It is the incoming block plus `W.T`
   * times the delta of the block handled after `t` in the forward pass,
   * scaled by the nonlinearity's gradient; the terminal block has no
   * recurrent term.
   */
  function Delta(ops: Ops, nlName: string, W: Mat, d: Mat, a: Mat, T: nat, bsize: nat, reverse: bool, t: nat): (e: Mat)
    requires ops.Valid()
    requires |d| == T * bsize && |a| == T * bsize && t < T
    ensures |e| == bsize
    decreases if reverse then t else T - t
  {
    var g := ops.getNlGrad(nlName, Block(a, T, bsize, t));
    if t == Terminal(T, reverse) then ops.hadamard(Block(d, T, bsize, t), g)
    else
      var next := if reverse then t - 1 else t + 1;
      ops.hadamard(ops.add(Block(d, T, bsize, t), ops.multT(W, Delta(ops, nlName, W, d, a, T, bsize, reverse, next))), g)
  }

  /** All reference deltas, laid out time-major. */
  function RecurBackward(ops: Ops, nlName: string, W: Mat, d: Mat, a: Mat, T: nat, bsize: nat, reverse: bool): (r: Mat)
    requires ops.Valid()
    requires |d| == T * bsize && |a| == T * bsize
    ensures |r| == T * bsize
    ensures forall t :: 0 <= t < T ==> Block(r, T, bsize, t) == Delta(ops, nlName, W, d, a, T, bsize, reverse, t)
  {
    var bs := seq(T, t requires 0 <= t < T => Delta(ops, nlName, W, d, a, T, bsize, reverse, t));
    FlattenBlocks(bs, bsize);
    Flatten(bs, bsize)
  }

  /** Block `t` has been rewritten once steps `1 .. i-1` of the backward loop are done. */
  predicate BackwardDone(T: nat, reverse: bool, i: nat, t: nat) {
    if reverse then 1 <= t < i else T - i <= t < T - 1
  }

  /**
   * What block `t` of the buffer holds after steps `1 .. i-1` of the
   * backward loop: the terminal block is whatever the caller left there, the
   * rewritten blocks hold their reference delta, the others still hold the
   * incoming deltas.
   */
  ghost function BackwardExpected(ops: Ops, nlName: string, W: Mat, d: Mat, a: Mat, T: nat, bsize: nat,
                                  reverse: bool, i: nat, terminalBlock: Mat, t: nat): Mat
    requires ops.Valid() && t < T
    requires |d| == T * bsize && |a| == T * bsize
  {
    if t == Terminal(T, reverse) then terminalBlock
    else if BackwardDone(T, reverse, i, t) then Delta(ops, nlName, W, d, a, T, bsize, reverse, t)
    else Block(d, T, bsize, t)
  }

  /** The buffer after steps `1 .. i-1` of the backward loop. */
  ghost predicate BackwardState(ops: Ops, nlName: string, W: Mat, d: Mat, a: Mat, T: nat, bsize: nat,
                                reverse: bool, i: nat, m: Mat, terminalBlock: Mat)
    requires ops.Valid()
    requires |d| == T * bsize && |a| == T * bsize
  {
    && |m| == T * bsize
    && forall t :: 0 <= t < T ==>
         Block(m, T, bsize, t) == BackwardExpected(ops, nlName, W, d, a, T, bsize, reverse, i, terminalBlock, t)
  }

  /**
   * What step `i` of the backward loop writes over its block `t` of buffer
   * `m`, given the delta `curr` of the block handled at the step before:
   * the block plus `W.T` times `curr`, scaled by the nonlinearity's gradient
   * at block `t` of the hidden states `a`.
   */
  function BackValue(ops: Ops, nlName: string, W: Mat, m: Mat, a: Mat, curr: Mat, T: nat, bsize: nat,
                     reverse: bool, i: nat): (e: Mat)
    requires ops.Valid()
    requires |m| == T * bsize && |a| == T * bsize && i < T
    ensures |e| == bsize
  {
    var t := Visit(T, !reverse, i);
    ops.hadamard(ops.add(Block(m, T, bsize, t), ops.multT(W, curr)), ops.getNlGrad(nlName, Block(a, T, bsize, t)))
  }

  /**
   * Step `i` applied to a block still holding its incoming deltas, with the
   * previous step's reference delta, gives the block's reference delta.
   */
  lemma BackValueIsDelta(ops: Ops, nlName: string, W: Mat, d: Mat, a: Mat, T: nat, bsize: nat,
                         reverse: bool, i: nat, m: Mat, curr: Mat)
    requires ops.Valid() && 1 <= i < T
    requires |d| == T * bsize && |a| == T * bsize && |m| == T * bsize
    requires Block(m, T, bsize, Visit(T, !reverse, i)) == Block(d, T, bsize, Visit(T, !reverse, i))
    requires curr == Delta(ops, nlName, W, d, a, T, bsize, reverse, Visit(T, !reverse, i - 1))
    ensures BackValue(ops, nlName, W, m, a, curr, T, bsize, reverse, i)
      == Delta(ops, nlName, W, d, a, T, bsize, reverse, Visit(T, !reverse, i))
  {
    var t := Visit(T, !reverse, i);
    assert t != Terminal(T, reverse);
    assert Visit(T, !reverse, i - 1) == if reverse then t - 1 else t + 1;
  }

  /**
   * A step of the backward loop writes the reference delta of its block and
   * moves the buffer one step further.
   */
  lemma BackwardStep(ops: Ops, nlName: string, W: Mat, d: Mat, a: Mat, T: nat, bsize: nat,
                     reverse: bool, i: nat, m: Mat, terminalBlock: Mat, curr: Mat)
    requires ops.Valid() && 1 <= i < T
    requires |d| == T * bsize && |a| == T * bsize
    requires BackwardState(ops, nlName, W, d, a, T, bsize, reverse, i, m, terminalBlock)
    requires curr == Delta(ops, nlName, W, d, a, T, bsize, reverse, Visit(T, !reverse, i - 1))
    ensures BackValue(ops, nlName, W, m, a, curr, T, bsize, reverse, i)
      == Delta(ops, nlName, W, d, a, T, bsize, reverse, Visit(T, !reverse, i))
    ensures BackwardState(ops, nlName, W, d, a, T, bsize, reverse, i + 1,
      Splice(m, T, bsize, Visit(T, !reverse, i), BackValue(ops, nlName, W, m, a, curr, T, bsize, reverse, i)),
      terminalBlock)
  {
    var t := Visit(T, !reverse, i);
    assert t != Terminal(T, reverse) && !BackwardDone(T, reverse, i, t);
    assert Block(m, T, bsize, t) == Block(d, T, bsize, t);
    BackValueIsDelta(ops, nlName, W, d, a, T, bsize, reverse, i, m, curr);
    var y := BackValue(ops, nlName, W, m, a, curr, T, bsize, reverse, i);
    var m' := Splice(m, T, bsize, t, y);
    forall u | 0 <= u < T
      ensures Block(m', T, bsize, u) == BackwardExpected(ops, nlName, W, d, a, T, bsize, reverse, i + 1, terminalBlock, u)
    {
      if u != t {
        assert BackwardDone(T, reverse, i + 1, u) == BackwardDone(T, reverse, i, u);
        assert Block(m', T, bsize, u) == Block(m, T, bsize, u);
      }
    }
  }

  /** Where step `i` of the backward loop puts `start`: just past the block it handles. */
  lemma BackStart(T: nat, bsize: nat, reverse: bool, i: nat)
    requires 1 <= i < T
    ensures (if reverse then (i + 1) * bsize else (T - i) * bsize) == Visit(T, !reverse, i) * bsize + bsize
  {
    MulSucc(Visit(T, !reverse, i), bsize);
  }

  /** `next_dt += mult(W.T, curr_dt)`, through the view of block `t` ending at `start`. */
  method AddTransposed(ops: Ops, W: Mat, buf: array<Col>, curr: Mat, T: nat, bsize: nat, t: nat, start: nat)
    returns (nextDt: Mat)
    requires ops.Valid()
    requires t < T && start == t * bsize + bsize && buf.Length == T * bsize
    modifies buf
    ensures nextDt == ops.add(Block(old(buf[..]), T, bsize, t), ops.multT(W, curr))
    ensures |nextDt| == bsize
    ensures buf[..] == Splice(old(buf[..]), T, bsize, t, nextDt)
  {
    BlockFits(t, T, bsize);
    nextDt := buf[start - bsize .. start];
    assert nextDt == Block(buf[..], T, bsize, t);
    nextDt := ops.add(nextDt, ops.multT(W, curr));
    WriteBlock(buf, T, bsize, t, nextDt);
  }

  /** `next_dt *= get_nl_grad(nl, acts[:, start-bsize:start])`, through the view of block `t`. */
  method ScaleByGrad(ops: Ops, nlName: string, buf: array<Col>, a: Mat, T: nat, bsize: nat, t: nat, start: nat)
    returns (next: Mat)
    requires ops.Valid()
    requires t < T && start == t * bsize + bsize && buf.Length == T * bsize && |a| == T * bsize
    modifies buf
    ensures next == ops.hadamard(Block(old(buf[..]), T, bsize, t), ops.getNlGrad(nlName, Block(a, T, bsize, t)))
    ensures buf[..] == Splice(old(buf[..]), T, bsize, t, next)
  {
    BlockFits(t, T, bsize);
    var nextDt := buf[start - bsize .. start];
    assert nextDt == Block(buf[..], T, bsize, t);
    var currAct := a[start - bsize .. start];
    assert currAct == Block(a, T, bsize, t);
    next := ops.hadamard(nextDt, ops.getNlGrad(nlName, currAct));
    WriteBlock(buf, T, bsize, t, next);
  }

  /**
   * One pass of `bprop_recur`'s loop: the block handled at step `i` gets
   * `W.T` times the previous step's delta added in place, then is scaled in
   * place by the nonlinearity's gradient; that block is the new delta.
   */
  method BackwardBlock(ops: Ops, nlName: string, W: Mat, buf: array<Col>, a: Mat, curr: Mat,
                       T: nat, bsize: nat, reverse: bool, i: nat)
    returns (next: Mat)
    requires ops.Valid() && 1 <= i < T
    requires |a| == T * bsize && buf.Length == T * bsize
    modifies buf
    ensures next == BackValue(ops, nlName, W, old(buf[..]), a, curr, T, bsize, reverse, i)
    ensures buf[..] == Splice(old(buf[..]), T, bsize, Visit(T, !reverse, i), next)
  {
    ghost var m := buf[..];
    var start := if reverse then (i + 1) * bsize else (T - i) * bsize;
    var t := Visit(T, !reverse, i);
    BackStart(T, bsize, reverse, i);
    var nextDt := AddTransposed(ops, W, buf, curr, T, bsize, t, start);
    next := ScaleByGrad(ops, nlName, buf, a, T, bsize, t, start);
    SpliceTwice(m, T, bsize, t, nextDt, next);
  }

  /**
   * Before the loop the buffer is the incoming deltas with the terminal
   * block set to `terminalBlock`.
   */
  lemma BackwardStart(ops: Ops, nlName: string, W: Mat, d: Mat, a: Mat, T: nat, bsize: nat, reverse: bool,
                      terminalBlock: Mat)
    requires ops.Valid() && T > 0
    requires |d| == T * bsize && |a| == T * bsize && |terminalBlock| == bsize
    ensures BackwardState(ops, nlName, W, d, a, T, bsize, reverse, 1,
      Splice(d, T, bsize, Terminal(T, reverse), terminalBlock), terminalBlock)
  {
  }

  /**
   * After the loop every block but the terminal one holds its reference
   * delta; with the terminal block's own delta stored, the buffer is the
   * reference result.
   */
  lemma BackwardEnd(ops: Ops, nlName: string, W: Mat, d: Mat, a: Mat, T: nat, bsize: nat, reverse: bool,
                    m: Mat, terminalBlock: Mat)
    requires ops.Valid() && T > 0
    requires |d| == T * bsize && |a| == T * bsize
    requires BackwardState(ops, nlName, W, d, a, T, bsize, reverse, T, m, terminalBlock)
    ensures |m| == T * bsize
    ensures Block(m, T, bsize, Terminal(T, reverse)) == terminalBlock
    ensures forall t :: 0 <= t < T && t != Terminal(T, reverse) ==>
      Block(m, T, bsize, t) == Delta(ops, nlName, W, d, a, T, bsize, reverse, t)
    ensures terminalBlock == Delta(ops, nlName, W, d, a, T, bsize, reverse, Terminal(T, reverse)) ==>
      m == RecurBackward(ops, nlName, W, d, a, T, bsize, reverse)
  {
    if terminalBlock == Delta(ops, nlName, W, d, a, T, bsize, reverse, Terminal(T, reverse)) {
      BlocksDetermine(m, RecurBackward(ops, nlName, W, d, a, T, bsize, reverse), T, bsize);
    }
  }

  /**
   * The backward loop at step `i`: the buffer is in its state after steps
   * `1 .. i-1`, and `curr` is the reference delta of the block handled last.
   */
  ghost predicate BackwardLoop(ops: Ops, nlName: string, W: Mat, d: Mat, a: Mat, T: nat, bsize: nat,
                               reverse: bool, i: nat, m: Mat, terminalBlock: Mat, curr: Mat)
    requires ops.Valid()
    requires |d| == T * bsize && |a| == T * bsize
  {
    && 1 <= i <= T
    && curr == Delta(ops, nlName, W, d, a, T, bsize, reverse, Visit(T, !reverse, i - 1))
    && BackwardState(ops, nlName, W, d, a, T, bsize, reverse, i, m, terminalBlock)
  }

  /** One iteration of the backward loop takes the buffer from step `i` to step `i + 1`. */
  method BackwardIteration(ops: Ops, nlName: string, W: Mat, buf: array<Col>, ghost d: Mat, a: Mat,
                           T: nat, bsize: nat, reverse: bool, i: nat, curr: Mat, ghost terminalBlock: Mat)
    returns (next: Mat)
    requires ops.Valid() && i < T
    requires |d| == T * bsize && |a| == T * bsize && buf.Length == T * bsize
    requires BackwardLoop(ops, nlName, W, d, a, T, bsize, reverse, i, buf[..], terminalBlock, curr)
    modifies buf
    ensures BackwardLoop(ops, nlName, W, d, a, T, bsize, reverse, i + 1, buf[..], terminalBlock, next)
  {
    BackwardStep(ops, nlName, W, d, a, T, bsize, reverse, i, buf[..], terminalBlock, curr);
    next := BackwardBlock(ops, nlName, W, buf, a, curr, T, bsize, reverse, i);
  }

  /**
   * The loop of `bprop_recur`: steps `1 .. T-1` walk inward from the
   * terminal block, each rewriting one block of `buf` in place with its
   * delta, computed from the delta of the step before.
   */
  method BackwardSteps(ops: Ops, nlName: string, W: Mat, buf: array<Col>, ghost d: Mat, a: Mat,
                       T: nat, bsize: nat, reverse: bool, currDt: Mat, ghost terminalBlock: Mat)
    requires ops.Valid() && T > 0
    requires |d| == T * bsize && |a| == T * bsize && buf.Length == T * bsize
    requires currDt == Delta(ops, nlName, W, d, a, T, bsize, reverse, Terminal(T, reverse))
    requires BackwardState(ops, nlName, W, d, a, T, bsize, reverse, 1, buf[..], terminalBlock)
    modifies buf
    ensures BackwardState(ops, nlName, W, d, a, T, bsize, reverse, T, buf[..], terminalBlock)
  {
    var curr := currDt;
    var i := 1;
    while i < T
      invariant BackwardLoop(ops, nlName, W, d, a, T, bsize, reverse, i, buf[..], terminalBlock, curr)
    {
      curr := BackwardIteration(ops, nlName, W, buf, d, a, T, bsize, reverse, i, curr, terminalBlock);
      i := i + 1;
    }
  }

  /**
   * `bprop_recur` as written: the delta of the terminal block is computed
   * (and drives the rest of the walk) but never stored, so the returned
   * deltas keep the incoming terminal block unscaled.  Every other block
   * holds its reference delta, and `dW` pairs the returned deltas with the
   * neighbouring hidden states.
   */
  method BackwardAsWritten(ops: Ops, nlName: string, W: Mat, d: Mat, a: Mat, T: nat, bsize: nat, reverse: bool)
    returns (r: Mat, dW: Mat)
    requires ops.Valid() && T > 0
    requires |d| == T * bsize && |a| == T * bsize
    ensures |r| == T * bsize
    ensures Block(r, T, bsize, Terminal(T, reverse)) == Block(d, T, bsize, Terminal(T, reverse))
    ensures forall t :: 0 <= t < T && t != Terminal(T, reverse) ==>
      Block(r, T, bsize, t) == Delta(ops, nlName, W, d, a, T, bsize, reverse, t)
    ensures dW == RecurGrad(ops, r, a, bsize, reverse)
  {
    var buf := new Col[|d|](j requires 0 <= j < |d| => d[j]);
    assert buf[..] == d;
    var term := Terminal(T, reverse);
    BlockFits(term, T, bsize);
    var start := term * bsize;
    var currAct := a[start .. start + bsize];
    assert currAct == Block(a, T, bsize, term);
    var currDt := ops.hadamard(buf[start .. start + bsize], ops.getNlGrad(nlName, currAct));
    assert buf[start .. start + bsize] == Block(d, T, bsize, term);
    ghost var terminalBlock := Block(d, T, bsize, term);
    BackwardStart(ops, nlName, W, d, a, T, bsize, reverse, terminalBlock);
    SpliceSame(d, T, bsize, term);
    BackwardSteps(ops, nlName, W, buf, d, a, T, bsize, reverse, currDt, terminalBlock);
    r := buf[..];
    BackwardEnd(ops, nlName, W, d, a, T, bsize, reverse, r, terminalBlock);
    dW := RecurGrad(ops, r, a, bsize, reverse);
  }

  /**
   * `bprop_recur` with the terminal block's delta stored before the walk:
   * every returned block is its reference delta.
   */
  method Backward(ops: Ops, nlName: string, W: Mat, d: Mat, a: Mat, T: nat, bsize: nat, reverse: bool)
    returns (r: Mat, dW: Mat)
    requires ops.Valid() && T > 0
    requires |d| == T * bsize && |a| == T * bsize
    ensures r == RecurBackward(ops, nlName, W, d, a, T, bsize, reverse)
    ensures dW == RecurGrad(ops, r, a, bsize, reverse)
  {
    var buf := new Col[|d|](j requires 0 <= j < |d| => d[j]);
    assert buf[..] == d;
    var term := Terminal(T, reverse);
    BlockFits(term, T, bsize);
    var start := term * bsize;
    var currAct := a[start .. start + bsize];
    assert currAct == Block(a, T, bsize, term);
    var currDt := ops.hadamard(buf[start .. start + bsize], ops.getNlGrad(nlName, currAct));
    assert buf[start .. start + bsize] == Block(d, T, bsize, term);
    WriteBlock(buf, T, bsize, term, currDt);
    BackwardStart(ops, nlName, W, d, a, T, bsize, reverse, currDt);
    BackwardSteps(ops, nlName, W, buf, d, a, T, bsize, reverse, currDt, currDt);
    r := buf[..];
    BackwardEnd(ops, nlName, W, d, a, T, bsize, reverse, r, currDt);
    dW := RecurGrad(ops, r, a, bsize, reverse);
  }

  // ---------------------------------------------------------------------
  // Gradient of the recurrent weights

  /** `m[:, :-n]`; with `n == 0` the slice is empty. */
  function DropLast(m: Mat, n: nat): Mat
    requires n <= |m|
  {
    if n == 0 then [] else m[..|m| - n]
  }

  /** The delta operand of the recurrent weight gradient. */
  function DeltaOperand(r: Mat, bsize: nat, reverse: bool): Mat
    requires bsize <= |r|
  {
    if reverse then DropLast(r, bsize) else r[bsize..]
  }

  /** The hidden-state operand of the recurrent weight gradient. */
  function ActOperand(a: Mat, bsize: nat, reverse: bool): Mat
    requires bsize <= |a|
  {
    if reverse then a[bsize..] else DropLast(a, bsize)
  }

  /** `dW = mult(deltas[...], acts[...].T) / bsize` */
  function RecurGrad(ops: Ops, r: Mat, a: Mat, bsize: nat, reverse: bool): Mat
    requires bsize <= |r| && bsize <= |a|
  {
    ops.divide(ops.multNT(DeltaOperand(r, bsize, reverse), ActOperand(a, bsize, reverse)), bsize)
  }

  /** Dropping the first block shifts block `u + 1` to position `u`. */
  lemma DropFirstBlock(m: Mat, n: nat, bsize: nat, u: nat)
    requires |m| == (n + 1) * bsize && u < n
    ensures bsize <= |m| && |m[bsize..]| == n * bsize
    ensures Block(m[bsize..], n, bsize, u) == Block(m, n + 1, bsize, u + 1)
  {
    MulSucc(n, bsize);
    MulSucc(u, bsize);
    BlockFits(u, n, bsize);
    var su := u * bsize;
    assert Block(m[bsize..], n, bsize, u) == m[bsize..][su .. su + bsize];
  }

  /** Dropping the last block keeps block `u` where it is. */
  lemma DropLastBlock(m: Mat, n: nat, bsize: nat, u: nat)
    requires |m| == (n + 1) * bsize && u < n
    ensures bsize <= |m| && |DropLast(m, bsize)| == n * bsize
    ensures Block(DropLast(m, bsize), n, bsize, u) == Block(m, n + 1, bsize, u)
  {
    MulSucc(n, bsize);
    BlockFits(u, n, bsize);
  }

  /**
   * For a layout of `n + 1` blocks, the two operands of the recurrent weight
   * gradient have `n` blocks each, and their `u`-th blocks pair the delta of
   * a block with the hidden state it received through `W`: delta `u + 1`
   * with state `u` forward, delta `u` with state `u + 1` in reverse.
   */
  lemma GradPairing(r: Mat, a: Mat, n: nat, bsize: nat, reverse: bool)
    requires |r| == (n + 1) * bsize && |a| == (n + 1) * bsize
    ensures bsize <= |r| && bsize <= |a|
    ensures |DeltaOperand(r, bsize, reverse)| == n * bsize
    ensures |ActOperand(a, bsize, reverse)| == n * bsize
    ensures forall u :: 0 <= u < n ==>
      Block(DeltaOperand(r, bsize, reverse), n, bsize, u)
        == Block(r, n + 1, bsize, if reverse then u else u + 1)
    ensures forall u :: 0 <= u < n ==>
      Block(ActOperand(a, bsize, reverse), n, bsize, u)
        == Block(a, n + 1, bsize, if reverse then u + 1 else u)
  {
    MulSucc(n, bsize);
    var dr, da := DeltaOperand(r, bsize, reverse), ActOperand(a, bsize, reverse);
    forall u | 0 <= u < n
      ensures Block(dr, n, bsize, u) == Block(r, n + 1, bsize, if reverse then u else u + 1)
      ensures Block(da, n, bsize, u) == Block(a, n + 1, bsize, if reverse then u + 1 else u)
    {
      if reverse {
        DropLastBlock(r, n, bsize, u);
        DropFirstBlock(a, n, bsize, u);
      } else {
        DropFirstBlock(r, n, bsize, u);
        DropLastBlock(a, n, bsize, u);
      }
    }
  }

  // ---------------------------------------------------------------------
  // The terminal block, on a concrete backend

  /** `x * y` elementwise, zero where `y` is too small. */
  function Times(x: Mat, y: Mat): (p: Mat)
    ensures |p| == |x|
  {
    seq(|x|, j requires 0 <= j < |x| =>
      seq(|x[j]|, i requires 0 <= i < |x[j]| =>
        if j < |y| && i < |y[j]| then x[j][i] * y[j][i] else 0.0))
  }

  /** `x + y` elementwise, keeping `x` where `y` is too small. */
  function Plus(x: Mat, y: Mat): (p: Mat)
    ensures |p| == |x|
  {
    seq(|x|, j requires 0 <= j < |x| =>
      seq(|x[j]|, i requires 0 <= i < |x[j]| =>
        if j < |y| && i < |y[j]| then x[j][i] + y[j][i] else x[j][i]))
  }

  /** The rectifier. */
  function Relu(m: Mat): (r: Mat)
    ensures |r| == |m|
  {
    seq(|m|, j requires 0 <= j < |m| =>
      seq(|m[j]|, i requires 0 <= i < |m[j]| => if m[j][i] > 0.0 then m[j][i] else 0.0))
  }

  /** The rectifier's gradient, as a function of its output. */
  function ReluGrad(m: Mat): (g: Mat)
    ensures |g| == |m|
  {
    seq(|m|, j requires 0 <= j < |m| =>
      seq(|m[j]|, i requires 0 <= i < |m[j]| => if m[j][i] > 0.0 then 1.0 else 0.0))
  }

  /**
   * A backend with rectifier nonlinearities.  Only the elementwise kernels
   * matter below; the products are stand-ins of the right width.
   */
  function ReluOps(): Ops {
    Ops((w, x) => x, (w, x) => x, (x, y) => x, Plus, Plus, Times, (m, n) => m, m => m,
        name => Relu, (name, m) => ReluGrad(m), m => m, v => v, (_, rows: nat, cols: nat) => Zeros(rows, cols))
  }

  /**
   * On one timestep of one example whose rectified state is `0` (gradient
   * `0`), the reference delta is `0`, but the as-written backward pass
   * returns the incoming delta `1` unchanged.
   */
  lemma TerminalBlockUnscaled()
    ensures ReluOps().Valid()
    ensures Terminal(1, false) == 0
    ensures Block([[1.0]], 1, 1, 0) == [[1.0]]
    ensures Delta(ReluOps(), "relu", [[1.0]], [[1.0]], [[0.0]], 1, 1, false, 0) == [[0.0]]
  {
    assert Block([[0.0]], 1, 1, 0) == [[0.0]];
    var g := ReluGrad([[0.0]]);
    assert |g| == 1 && |g[0]| == 1 && g[0][0] == 0.0;
    assert g[0] == [0.0];
    assert g == [[0.0]];
    var p := Times([[1.0]], g);
    assert |p| == 1 && |p[0]| == 1 && p[0][0] == 0.0;
    assert p[0] == [0.0];
    assert p == [[0.0]];
  }
}
