/**
 * The time-major batch layout.  A batch of `T` timesteps and `bsize`
 * examples is one matrix with `T * bsize` columns; column `t * bsize + k`
 * holds timestep `t` of example `k`, so each timestep is a contiguous block
 * of `bsize` columns.
 */
module TimeMajor {
  import opened Numerics

  /** Multiplying by a natural number is monotone. */
  lemma MulMono(a: nat, b: nat, c: nat)
    requires a <= b
    ensures a * c <= b * c
  {
  }

  /** Block `t` of a `T`-block layout ends inside the layout. */
  lemma BlockFits(t: nat, T: nat, bsize: nat)
    requires t < T
    ensures t * bsize + bsize <= T * bsize
  {
    MulMono(t + 1, T, bsize);
  }

  /** The column of timestep `t`, example `k`. */
  function Column(t: nat, k: nat, bsize: nat): nat
    requires k < bsize
  {
    t * bsize + k
  }

  /** A column decodes back to its (timestep, example): distinct pairs get distinct columns. */
  lemma ColumnDecodes(t: nat, k: nat, bsize: nat)
    requires k < bsize
    ensures Column(t, k, bsize) / bsize == t && Column(t, k, bsize) % bsize == k
  {
    var c := t * bsize + k;
    var q, r := c / bsize, c % bsize;
    assert c == q * bsize + r;
    if q < t {
      MulMono(q + 1, t, bsize);
      assert false;
    } else if q > t {
      MulMono(t + 1, q, bsize);
      assert false;
    }
  }

  /** Every column of a `T`-block layout is the column of some (timestep, example). */
  lemma ColumnOfIndex(j: nat, T: nat, bsize: nat)
    requires j < T * bsize
    ensures bsize > 0 && j / bsize < T && j % bsize < bsize
    ensures j == Column(j / bsize, j % bsize, bsize)
  {
    var q := j / bsize;
    assert j == q * bsize + j % bsize;
    if q >= T {
      MulMono(T, q, bsize);
      assert false;
    }
  }

  /** Block `t`: the `bsize` columns of timestep `t`. */
  function Block(m: Mat, T: nat, bsize: nat, t: nat): (b: Mat)
    requires |m| == T * bsize && t < T
    ensures |b| == bsize
  {
    BlockFits(t, T, bsize);
    m[t * bsize .. t * bsize + bsize]
  }

  /** Entry `k` of block `t` is column `t * bsize + k` of the layout. */
  lemma BlockColumn(m: Mat, T: nat, bsize: nat, t: nat, k: nat)
    requires |m| == T * bsize && t < T && k < bsize
    ensures Column(t, k, bsize) < |m|
    ensures Block(m, T, bsize, t)[k] == m[Column(t, k, bsize)]
  {
    BlockFits(t, T, bsize);
  }

  /** Two layouts whose blocks all agree are the same matrix. */
  lemma BlocksDetermine(m1: Mat, m2: Mat, T: nat, bsize: nat)
    requires |m1| == T * bsize && |m2| == T * bsize
    requires forall t :: 0 <= t < T ==> Block(m1, T, bsize, t) == Block(m2, T, bsize, t)
    ensures m1 == m2
  {
    forall j | 0 <= j < |m1|
      ensures m1[j] == m2[j]
    {
      ColumnOfIndex(j, T, bsize);
      var t, k := j / bsize, j % bsize;
      BlockColumn(m1, T, bsize, t, k);
      BlockColumn(m2, T, bsize, t, k);
    }
  }

  /**
   * `m` with block `t` replaced by `v`: the effect of an in-place write
   * `m[:, t*bsize:(t+1)*bsize] = v`.
   */
  function Splice(m: Mat, T: nat, bsize: nat, t: nat, v: Mat): (s: Mat)
    requires |m| == T * bsize && t < T && |v| == bsize
    ensures |s| == T * bsize
    ensures forall u :: 0 <= u < T ==>
      Block(s, T, bsize, u) == if u == t then v else Block(m, T, bsize, u)
  {
    BlockFits(t, T, bsize);
    var s := m[..t * bsize] + v + m[t * bsize + bsize..];
    SpliceBlocks(m, T, bsize, t, v, s);
    s
  }

  lemma SpliceBlocks(m: Mat, T: nat, bsize: nat, t: nat, v: Mat, s: Mat)
    requires |m| == T * bsize && t < T && |v| == bsize
    requires t * bsize + bsize <= |m|
    requires s == m[..t * bsize] + v + m[t * bsize + bsize..]
    ensures |s| == T * bsize
    ensures forall u :: 0 <= u < T ==>
      Block(s, T, bsize, u) == if u == t then v else Block(m, T, bsize, u)
  {
    var st := t * bsize;
    forall u | 0 <= u < T
      ensures Block(s, T, bsize, u) == if u == t then v else Block(m, T, bsize, u)
    {
      BlockFits(u, T, bsize);
      var su := u * bsize;
      assert Block(s, T, bsize, u) == s[su .. su + bsize];
      assert Block(m, T, bsize, u) == m[su .. su + bsize];
      if u < t {
        BlockFits(u, t, bsize);
        assert s[su .. su + bsize] == m[su .. su + bsize] by {
          assert s[..st] == m[..st];
        }
      } else if u > t {
        BlockFits(t, u, bsize);
        assert s[su .. su + bsize] == m[su .. su + bsize] by {
          assert forall i :: su <= i < su + bsize ==> s[i] == m[i];
        }
      } else {
        assert s[st .. st + bsize] == v;
      }
    }
  }

  /** `(t + 1) * bsize` unfolds. */
  lemma MulSucc(t: nat, bsize: nat)
    ensures (t + 1) * bsize == t * bsize + bsize
  {
  }

  /**
   * The layout whose blocks are `bs`, in order.  Applied to a batch given as
   * `data[t][k]` it is the reshape that merges the time and example axes.
   */
  function Flatten(bs: seq<Mat>, bsize: nat): (m: Mat)
    requires forall t :: 0 <= t < |bs| ==> |bs[t]| == bsize
    ensures |m| == |bs| * bsize
    decreases |bs|
  {
    if bs == [] then []
    else
      var n := |bs| - 1;
      MulSucc(n, bsize);
      Flatten(bs[..n], bsize) + bs[n]
  }

  /** Block `t` of the flattened layout is `bs[t]`. */
  lemma {:induction false} FlattenBlock(bs: seq<Mat>, bsize: nat, t: nat)
    requires forall u :: 0 <= u < |bs| ==> |bs[u]| == bsize
    requires t < |bs|
    ensures Block(Flatten(bs, bsize), |bs|, bsize, t) == bs[t]
    decreases |bs|
  {
    var n := |bs| - 1;
    var prefix := Flatten(bs[..n], bsize);
    assert Flatten(bs, bsize) == prefix + bs[n];
    BlockFits(t, |bs|, bsize);
    if t < n {
      BlockFits(t, n, bsize);
      assert Block(prefix + bs[n], |bs|, bsize, t) == Block(prefix, n, bsize, t);
      FlattenBlock(bs[..n], bsize, t);
    } else {
      assert Block(prefix + bs[n], |bs|, bsize, t) == (prefix + bs[n])[|prefix|..];
    }
  }

  /** Every block of the flattened layout is the corresponding entry of `bs`. */
  lemma FlattenBlocks(bs: seq<Mat>, bsize: nat)
    requires forall u :: 0 <= u < |bs| ==> |bs[u]| == bsize
    ensures forall t :: 0 <= t < |bs| ==> Block(Flatten(bs, bsize), |bs|, bsize, t) == bs[t]
  {
    forall t | 0 <= t < |bs|
      ensures Block(Flatten(bs, bsize), |bs|, bsize, t) == bs[t]
    {
      FlattenBlock(bs, bsize, t);
    }
  }

  /** Flattening puts example `k` of timestep `t` in column `t * bsize + k`. */
  lemma FlattenColumn(bs: seq<Mat>, bsize: nat, t: nat, k: nat)
    requires forall u :: 0 <= u < |bs| ==> |bs[u]| == bsize
    requires t < |bs| && k < bsize
    ensures Column(t, k, bsize) < |bs| * bsize
    ensures Flatten(bs, bsize)[Column(t, k, bsize)] == bs[t][k]
  {
    FlattenBlock(bs, bsize, t);
    BlockColumn(Flatten(bs, bsize), |bs|, bsize, t, k);
  }

  /** Writing a block's own contents back leaves the layout as it was. */
  lemma SpliceSame(m: Mat, T: nat, bsize: nat, t: nat)
    requires |m| == T * bsize && t < T
    ensures Splice(m, T, bsize, t, Block(m, T, bsize, t)) == m
  {
    BlocksDetermine(Splice(m, T, bsize, t, Block(m, T, bsize, t)), m, T, bsize);
  }

  /** Of two writes to the same block, the second wins. */
  lemma SpliceTwice(m: Mat, T: nat, bsize: nat, t: nat, v: Mat, w: Mat)
    requires |m| == T * bsize && t < T && |v| == bsize && |w| == bsize
    ensures Splice(Splice(m, T, bsize, t, v), T, bsize, t, w) == Splice(m, T, bsize, t, w)
  {
    BlocksDetermine(Splice(Splice(m, T, bsize, t, v), T, bsize, t, w), Splice(m, T, bsize, t, w), T, bsize);
  }

  /** `buf[:, t*bsize:(t+1)*bsize] = v`, in place. */
  method WriteBlock(buf: array<Col>, T: nat, bsize: nat, t: nat, v: Mat)
    requires buf.Length == T * bsize && t < T && |v| == bsize
    modifies buf
    ensures buf[..] == Splice(old(buf[..]), T, bsize, t, v)
  {
    BlockFits(t, T, bsize);
    var start := t * bsize;
    forall j | start <= j < start + bsize {
      buf[j] := v[j - start];
    }
    assert buf[..] == old(buf[..])[..start] + v + old(buf[..])[start + bsize..];
  }
}
