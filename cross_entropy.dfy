/**
 * The softmax cross-entropy cost of a time-major batch of class
 * probabilities against per-example label sequences of possibly different
 * lengths, and its deltas with respect to the pre-softmax activations.
 */
module CrossEntropy {
  import opened Numerics
  import opened TimeMajor

  /** What scoring a batch gives: a `T` by `bsize` cost table and the deltas, or an index error. */
  datatype Scores = Scored(costs: seq<seq<real>>, deltas: Mat) | IndexError

  /**
   * The first `n` labels of example `k` index an existing entry of the
   * probabilities: the column `t * bsize + k` exists and the label is one of
   * its rows.  These are the two index checks of the scoring loop.
   */
  ghost predicate RowFits(probs: Mat, labels: seq<seq<nat>>, bsize: nat, k: nat, n: nat)
    requires k < |labels| && k < bsize && n <= |labels[k]|
  {
    forall t :: 0 <= t < n ==>
      Column(t, k, bsize) < |probs| && labels[k][t] < |probs[Column(t, k, bsize)]|
  }

  /** Every example of the batch has a label sequence, and every label indexes an existing entry. */
  ghost predicate LabelsFit(probs: Mat, labels: seq<seq<nat>>, bsize: nat) {
    && bsize <= |labels|
    && forall k :: 0 <= k < bsize ==> RowFits(probs, labels, bsize, k, |labels[k]|)
  }

  /** `col` with entry `i` reduced by one. */
  function Decrement(col: Col, i: nat): (c: Col)
    requires i < |col|
    ensures |c| == |col| && c[i] == col[i] - 1.0
    ensures forall j :: 0 <= j < |col| && j != i ==> c[j] == col[j]
  {
    col[i := col[i] - 1.0]
  }

  /** `-1 * log(probs)`, elementwise. */
  function NegLog(ops: Ops, probs: Mat): (m: Mat)
    ensures |m| == |probs| && forall c :: 0 <= c < |m| ==> |m[c]| == |probs[c]|
  {
    seq(|probs|, c requires 0 <= c < |probs| =>
      seq(|probs[c]|, i requires 0 <= i < |probs[c]| => -1.0 * ops.log(probs[c][i])))
  }

  /**
   * The cost of timestep `t` of example `k`: minus the log probability of
   * its label, or `0` past the end of the example's label sequence.
   */
  function Cost(ops: Ops, probs: Mat, labels: seq<seq<nat>>, T: nat, bsize: nat, t: nat, k: nat): real
    requires |probs| == T * bsize && LabelsFit(probs, labels, bsize)
    requires t < T && k < bsize
  {
    if t < |labels[k]| then -1.0 * ops.log(probs[Column(t, k, bsize)][labels[k][t]]) else 0.0
  }

  /** The `T` by `bsize` table of costs. */
  function CostTable(ops: Ops, probs: Mat, labels: seq<seq<nat>>, T: nat, bsize: nat): (costs: seq<seq<real>>)
    requires |probs| == T * bsize && LabelsFit(probs, labels, bsize)
  {
    seq(T, t requires 0 <= t < T =>
      seq(bsize, k requires 0 <= k < bsize => Cost(ops, probs, labels, T, bsize, t, k)))
  }

  /**
   * The delta of column `t * bsize + k`: the probabilities, minus one at
   * the label when timestep `t` of example `k` is labelled.
   */
  function DeltaCol(probs: Mat, labels: seq<seq<nat>>, T: nat, bsize: nat, t: nat, k: nat): Col
    requires |probs| == T * bsize && LabelsFit(probs, labels, bsize)
    requires t < T && k < bsize
  {
    if t < |labels[k]| then Decrement(probs[Column(t, k, bsize)], labels[k][t])
    else Block(probs, T, bsize, t)[k]
  }

  /** All deltas, laid out time-major. */
  function Deltas(probs: Mat, labels: seq<seq<nat>>, T: nat, bsize: nat): (deltas: Mat)
    requires |probs| == T * bsize && LabelsFit(probs, labels, bsize)
    ensures |deltas| == T * bsize
  {
    Flatten(DeltaBlocks(probs, labels, T, bsize), bsize)
  }

  function DeltaBlocks(probs: Mat, labels: seq<seq<nat>>, T: nat, bsize: nat): (bs: seq<Mat>)
    requires |probs| == T * bsize && LabelsFit(probs, labels, bsize)
    ensures |bs| == T && forall t :: 0 <= t < T ==> |bs[t]| == bsize
  {
    seq(T, t requires 0 <= t < T =>
      seq(bsize, k requires 0 <= k < bsize => DeltaCol(probs, labels, T, bsize, t, k)))
  }

  /** Column `t * bsize + k` of the deltas is `DeltaCol` of (`t`, `k`). */
  lemma DeltasColumn(probs: Mat, labels: seq<seq<nat>>, T: nat, bsize: nat, t: nat, k: nat)
    requires |probs| == T * bsize && LabelsFit(probs, labels, bsize)
    requires t < T && k < bsize
    ensures Column(t, k, bsize) < T * bsize
    ensures Deltas(probs, labels, T, bsize)[Column(t, k, bsize)] == DeltaCol(probs, labels, T, bsize, t, k)
  {
    FlattenColumn(DeltaBlocks(probs, labels, T, bsize), bsize, t, k);
  }

  /**
   * What scoring does at position (`t`, `k`): a labelled timestep costs minus
   * the log probability of its label, and its delta column is its
   * probability column with that one entry lowered by one; a timestep past
   * the end of the example's labels costs nothing and its delta column is
   * its probability column.
   */
  lemma ScoredEntry(ops: Ops, probs: Mat, labels: seq<seq<nat>>, T: nat, bsize: nat, t: nat, k: nat)
    requires |probs| == T * bsize && LabelsFit(probs, labels, bsize) && t < T && k < bsize
    ensures Column(t, k, bsize) < |probs|
    ensures var c := Column(t, k, bsize);
            var d := Deltas(probs, labels, T, bsize)[c];
            && |d| == |probs[c]|
            && (forall i :: 0 <= i < |d| ==>
                  d[i] == if t < |labels[k]| && i == labels[k][t] then probs[c][i] - 1.0 else probs[c][i])
            && CostTable(ops, probs, labels, T, bsize)[t][k]
                 == if t < |labels[k]| then -1.0 * ops.log(probs[c][labels[k][t]]) else 0.0
  {
    DeltasColumn(probs, labels, T, bsize, t, k);
    BlockColumn(probs, T, bsize, t, k);
  }

  /**
   * An example with more labels than the batch has timesteps makes scoring
   * index past the last column: the labels do not fit.
   */
  lemma LongLabelsError(probs: Mat, labels: seq<seq<nat>>, T: nat, bsize: nat, k: nat)
    requires |probs| == T * bsize && k < bsize && k < |labels| && |labels[k]| > T
    ensures !LabelsFit(probs, labels, bsize)
  {
    ColumnTimestep(T, k, T, bsize);
  }

  // ---------------------------------------------------------------------
  // The scoring loop

  /** Position (`k'`, `t'`) of the nested loops comes before position (`k`, `t`). */
  predicate Before(k': nat, t': nat, k: nat, t: nat) {
    k' < k || (k' == k && t' < t)
  }

  /** Position (`k'`, `t'`) comes before (`k`, `t`) and is labelled. */
  ghost predicate ScoredBefore(labels: seq<seq<nat>>, k': nat, t': nat, k: nat, t: nat) {
    Before(k', t', k, t) && k' < |labels| && t' < |labels[k']|
  }

  /**
   * The index checks passed before position (`k`, `t`): examples `0 .. k-1`
   * entirely, and the first `t` labels of example `k`.
   */
  ghost predicate FitsBefore(probs: Mat, labels: seq<seq<nat>>, bsize: nat, k: nat, t: nat) {
    && k <= |labels| && k <= bsize
    && (forall k' :: 0 <= k' < k ==> RowFits(probs, labels, bsize, k', |labels[k']|))
    && (k < |labels| && k < bsize ==> t <= |labels[k]| && RowFits(probs, labels, bsize, k, t))
  }

  /**
   * The cost table `cs` and the deltas `d` after the loops reach position
   * (`k`, `t`): every labelled position before it has its cost and its
   * decremented entry, every other position still holds `0` and the
   * probabilities.
   */
  ghost predicate LoopState(ops: Ops, probs: Mat, labels: seq<seq<nat>>, T: nat, bsize: nat, k: nat, t: nat,
                            cs: seq<seq<real>>, d: Mat)
  {
    && |probs| == T * bsize && |d| == T * bsize
    && |cs| == T && (forall t' :: 0 <= t' < T ==> |cs[t']| == bsize)
    && forall t', k' :: 0 <= t' < T && 0 <= k' < bsize && Column(t', k', bsize) < |probs| ==>
         var c := Column(t', k', bsize);
         if ScoredBefore(labels, k', t', k, t) && labels[k'][t'] < |probs[c]| then
           d[c] == Decrement(probs[c], labels[k'][t']) && cs[t'][k'] == -1.0 * ops.log(probs[c][labels[k'][t']])
         else
           d[c] == probs[c] && cs[t'][k'] == 0.0
  }

  /** Distinct (timestep, example) positions have distinct columns. */
  lemma ColumnsDistinct(bsize: nat)
    ensures forall t1: nat, k1: nat, t2: nat, k2: nat ::
      k1 < bsize && k2 < bsize && Column(t1, k1, bsize) == Column(t2, k2, bsize) ==> t1 == t2 && k1 == k2
  {
    forall t1: nat, k1: nat, t2: nat, k2: nat | k1 < bsize && k2 < bsize && Column(t1, k1, bsize) == Column(t2, k2, bsize)
      ensures t1 == t2 && k1 == k2
    {
      ColumnDecodes(t1, k1, bsize);
      ColumnDecodes(t2, k2, bsize);
    }
  }

  /** A column inside the layout belongs to a timestep inside the batch. */
  lemma ColumnTimestep(t: nat, k: nat, T: nat, bsize: nat)
    requires k < bsize
    ensures Column(t, k, bsize) < T * bsize <==> t < T
  {
    if t < T {
      BlockFits(t, T, bsize);
    } else {
      MulMono(T, t, bsize);
    }
  }

  /** Scoring position (`k`, `t`) takes the loop state one position further. */
  lemma ScoreStep(ops: Ops, probs: Mat, labels: seq<seq<nat>>, T: nat, bsize: nat, k: nat, t: nat,
                  cs: seq<seq<real>>, d: Mat, c: nat, l: nat, v: real)
    requires k < |labels| && k < bsize && t < |labels[k]|
    requires LoopState(ops, probs, labels, T, bsize, k, t, cs, d)
    requires c == Column(t, k, bsize) && l == labels[k][t]
    requires c < |probs| && l < |probs[c]| && v == -1.0 * ops.log(probs[c][l])
    ensures t < T && c < |d| && d[c] == probs[c]
    ensures LoopState(ops, probs, labels, T, bsize, k, t + 1, cs[t := cs[t][k := v]], d[c := d[c][l := d[c][l] - 1.0]])
  {
    ColumnTimestep(t, k, T, bsize);
    ColumnsDistinct(bsize);
    assert d[c] == probs[c] by {
      assert !ScoredBefore(labels, k, t, k, t);
    }
  }

  /** The index checks at position (`k`, `t`) passed: the checks before position (`k`, `t + 1`) did too. */
  lemma FitsStep(probs: Mat, labels: seq<seq<nat>>, bsize: nat, k: nat, t: nat)
    requires k < |labels| && k < bsize && t < |labels[k]|
    requires FitsBefore(probs, labels, bsize, k, t)
    requires Column(t, k, bsize) < |probs| && labels[k][t] < |probs[Column(t, k, bsize)]|
    ensures FitsBefore(probs, labels, bsize, k, t + 1)
  {
  }

  /** Finishing example `k` is starting example `k + 1`. */
  lemma NextExample(ops: Ops, probs: Mat, labels: seq<seq<nat>>, T: nat, bsize: nat, k: nat,
                    cs: seq<seq<real>>, d: Mat)
    requires k < |labels|
    requires LoopState(ops, probs, labels, T, bsize, k, |labels[k]|, cs, d)
    ensures LoopState(ops, probs, labels, T, bsize, k + 1, 0, cs, d)
  {
    assert forall k', t' :: ScoredBefore(labels, k', t', k, |labels[k]|) <==> ScoredBefore(labels, k', t', k + 1, 0);
  }

  /** After the last example the loop state is the specified result. */
  lemma LoopDone(ops: Ops, probs: Mat, labels: seq<seq<nat>>, T: nat, bsize: nat, cs: seq<seq<real>>, d: Mat)
    requires LoopState(ops, probs, labels, T, bsize, bsize, 0, cs, d)
    requires FitsBefore(probs, labels, bsize, bsize, 0)
    ensures LabelsFit(probs, labels, bsize)
    ensures cs == CostTable(ops, probs, labels, T, bsize)
    ensures d == Deltas(probs, labels, T, bsize)
  {
    var table := CostTable(ops, probs, labels, T, bsize);
    forall t | 0 <= t < T
      ensures cs[t] == table[t]
    {
      forall k | 0 <= k < bsize
        ensures cs[t][k] == table[t][k]
      {
        ColumnTimestep(t, k, T, bsize);
      }
    }
    DeltasDone(ops, probs, labels, T, bsize, cs, d);
  }

  lemma DeltasDone(ops: Ops, probs: Mat, labels: seq<seq<nat>>, T: nat, bsize: nat, cs: seq<seq<real>>, d: Mat)
    requires LoopState(ops, probs, labels, T, bsize, bsize, 0, cs, d)
    requires LabelsFit(probs, labels, bsize)
    ensures d == Deltas(probs, labels, T, bsize)
  {
    var deltas := Deltas(probs, labels, T, bsize);
    forall j | 0 <= j < |d|
      ensures d[j] == deltas[j]
    {
      ColumnOfIndex(j, T, bsize);
      var t, k := j / bsize, j % bsize;
      DeltasColumn(probs, labels, T, bsize, t, k);
      BlockColumn(probs, T, bsize, t, k);
    }
  }

  /** The contents of the cost buffer. */
  ghost function Table(a: array2<real>): seq<seq<real>>
    reads a
  {
    seq(a.Length0, i requires 0 <= i < a.Length0 reads a =>
      seq(a.Length1, j requires 0 <= j < a.Length1 reads a => a[i, j]))
  }

  /** `costs[t, k] = v` and `deltas[l, c] -= 1`, in place. */
  method ScoreAt(costs: array2<real>, deltas: array<Col>, t: nat, k: nat, c: nat, l: nat, v: real)
    requires t < costs.Length0 && k < costs.Length1
    requires c < deltas.Length && l < |deltas[c]|
    modifies costs, deltas
    ensures Table(costs) == old(Table(costs))[t := old(Table(costs))[t][k := v]]
    ensures deltas[..] == old(deltas[..])[c := old(deltas[..])[c][l := old(deltas[..])[c][l] - 1.0]]
  {
    deltas[c] := deltas[c][l := deltas[c][l] - 1.0];
    ghost var before := Table(costs);
    costs[t, k] := v;
    ghost var after := Table(costs);
    forall i | 0 <= i < costs.Length0
      ensures after[i] == before[t := before[t][k := v]][i]
    {
      if i == t {
        assert after[i] == before[t][k := v];
      } else {
        assert after[i] == before[i];
      }
    }
  }

  /**
   * The inner loop over example `k` at timestep `t`: the index checks
   * before (`k`, `t`) passed and the buffers hold the loop state there.
   */
  ghost predicate ExampleLoop(ops: Ops, probs: Mat, labels: seq<seq<nat>>, T: nat, bsize: nat, k: nat, t: nat,
                              cs: seq<seq<real>>, d: Mat)
    requires k < |labels|
  {
    && t <= |labels[k]|
    && FitsBefore(probs, labels, bsize, k, t)
    && LoopState(ops, probs, labels, T, bsize, k, t, cs, d)
  }

  /**
   * One pass of the inner loop at a position whose checks pass: the cost is
   * minus the log probability of the label, and the label's entry of the
   * deltas drops by one.
   */
  method ScoreLabel(ops: Ops, negLog: Mat, probs: Mat, labels: seq<seq<nat>>, T: nat, bsize: nat, k: nat, t: nat,
                    costs: array2<real>, deltas: array<Col>)
    requires k < |labels| && k < bsize && t < |labels[k]| && |probs| == T * bsize && negLog == NegLog(ops, probs)
    requires deltas.Length == T * bsize && costs.Length0 == T && costs.Length1 == bsize
    requires ExampleLoop(ops, probs, labels, T, bsize, k, t, Table(costs), deltas[..])
    requires Column(t, k, bsize) < |negLog| && labels[k][t] < |negLog[Column(t, k, bsize)]|
    modifies costs, deltas
    ensures ExampleLoop(ops, probs, labels, T, bsize, k, t + 1, Table(costs), deltas[..])
  {
    var c := t * bsize + k;
    var l := labels[k][t];
    ghost var cs, d := Table(costs), deltas[..];
    var v := negLog[c][l];
    ScoreStep(ops, probs, labels, T, bsize, k, t, cs, d, c, l, v);
    FitsStep(probs, labels, bsize, k, t);
    ScoreAt(costs, deltas, t, k, c, l, v);
    assert Table(costs) == cs[t := cs[t][k := v]];
    assert deltas[..] == d[c := d[c][l := d[c][l] - 1.0]];
  }

  /**
   * The inner loop of `cross_ent`: scores the labelled timesteps of example
   * `k` in order, stopping with `false` at the first label that does not
   * index an existing entry.
   */
  method ScoreExample(ops: Ops, negLog: Mat, probs: Mat, labels: seq<seq<nat>>, T: nat, bsize: nat, k: nat,
                      costs: array2<real>, deltas: array<Col>)
    returns (ok: bool)
    requires k < |labels| && k < bsize && |probs| == T * bsize && negLog == NegLog(ops, probs)
    requires deltas.Length == T * bsize && costs.Length0 == T && costs.Length1 == bsize
    requires ExampleLoop(ops, probs, labels, T, bsize, k, 0, Table(costs), deltas[..])
    modifies costs, deltas
    ensures ok ==> OuterLoop(ops, probs, labels, T, bsize, k + 1, Table(costs), deltas[..])
    ensures !ok ==> !LabelsFit(probs, labels, bsize)
  {
    var t := 0;
    while t < |labels[k]|
      invariant ExampleLoop(ops, probs, labels, T, bsize, k, t, Table(costs), deltas[..])
    {
      var c := t * bsize + k;
      if c >= |negLog| || labels[k][t] >= |negLog[c]| {
        assert !RowFits(probs, labels, bsize, k, |labels[k]|) by {
          assert c == Column(t, k, bsize);
        }
        return false;
      }
      ScoreLabel(ops, negLog, probs, labels, T, bsize, k, t, costs, deltas);
      t := t + 1;
    }
    NextExample(ops, probs, labels, T, bsize, k, Table(costs), deltas[..]);
    return true;
  }

  /** The outer loop of `cross_ent` before example `k`. */
  ghost predicate OuterLoop(ops: Ops, probs: Mat, labels: seq<seq<nat>>, T: nat, bsize: nat, k: nat,
                            cs: seq<seq<real>>, d: Mat)
  {
    && k <= bsize
    && FitsBefore(probs, labels, bsize, k, 0)
    && LoopState(ops, probs, labels, T, bsize, k, 0, cs, d)
  }

  /** The cost buffer, read out as a table. */
  method ReadTable(costs: array2<real>) returns (table: seq<seq<real>>)
    ensures table == Table(costs)
  {
    table := seq(costs.Length0, t requires 0 <= t < costs.Length0 reads costs =>
               seq(costs.Length1, k requires 0 <= k < costs.Length1 reads costs => costs[t, k]));
  }

  /**
   * `cross_ent`: for each example `k` and each of its labelled timesteps
   * `t`, the cost is minus the log probability of the label in column
   * `t * bsize + k`, and the delta is the probabilities with one subtracted
   * at the label.  An example without a label sequence, a label sequence
   * longer than the batch, or a label outside the output rows is an index
   * error.
   */
  method CrossEnt(ops: Ops, probs: Mat, labels: seq<seq<nat>>, T: nat, bsize: nat) returns (r: Scores)
    requires |probs| == T * bsize
    ensures LabelsFit(probs, labels, bsize) ==> r == Scored(CostTable(ops, probs, labels, T, bsize), Deltas(probs, labels, T, bsize))
    ensures !LabelsFit(probs, labels, bsize) ==> r == IndexError
  {
    var negLog := NegLog(ops, probs);
    var deltas := new Col[|probs|](c requires 0 <= c < |probs| => probs[c]);
    var costs := new real[T, bsize]((t, k) => 0.0);
    assert LoopState(ops, probs, labels, T, bsize, 0, 0, Table(costs), deltas[..]);
    var k := 0;
    while k < bsize
      invariant OuterLoop(ops, probs, labels, T, bsize, k, Table(costs), deltas[..])
    {
      if k >= |labels| {
        return IndexError;
      }
      var ok := ScoreExample(ops, negLog, probs, labels, T, bsize, k, costs, deltas);
      if !ok {
        return IndexError;
      }
      k := k + 1;
    }
    LoopDone(ops, probs, labels, T, bsize, Table(costs), deltas[..]);
    var table := ReadTable(costs);
    r := Scored(table, deltas[..]);
  }
}
