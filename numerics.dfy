/**
 * Dense matrices and the numeric kernels the network borrows from its
 * array backend.  The floating-point values themselves are not modelled:
 * each kernel is an arbitrary function value, and `Ops.Valid` records the
 * only facts the network's indexing relies on (how many columns a result has,
 * and the shape of a freshly initialised weight matrix).
 */
module Numerics {

  /** One column: the feature vector of a single (timestep, example) pair. */
  type Col = seq<real>

  /** A matrix stored column by column: `m[j][i]` is row `i` of column `j`. */
  type Mat = seq<Col>

  datatype Option<+T> = None | Some(value: T)

  /** `m` has `rows` rows and `cols` columns. */
  ghost predicate IsShape(m: Mat, rows: nat, cols: nat) {
    |m| == cols && forall j :: 0 <= j < |m| ==> |m[j]| == rows
  }

  /** `a` and `b` have the same shape. */
  ghost predicate SameShape(a: Mat, b: Mat) {
    |a| == |b| && forall j :: 0 <= j < |a| ==> |a[j]| == |b[j]|
  }

  /** `zeros((rows, cols))` */
  function Zeros(rows: nat, cols: nat): (z: Mat)
    ensures IsShape(z, rows, cols)
    ensures forall j, i :: 0 <= j < cols && 0 <= i < rows ==> z[j][i] == 0.0
  {
    seq(cols, _ => seq(rows, _ => 0.0))
  }

  /** `zeros(m.shape)` */
  function ZerosLike(m: Mat): (z: Mat)
    ensures SameShape(z, m)
    ensures forall j, i :: 0 <= j < |z| && 0 <= i < |z[j]| ==> z[j][i] == 0.0
  {
    seq(|m|, j requires 0 <= j < |m| => seq(|m[j]|, _ => 0.0))
  }

  /** The kernels of the array backend, as the network calls them. */
  datatype Ops = Ops(
    mult: (Mat, Mat) -> Mat,       // mult(a, x): the product a . x
    multT: (Mat, Mat) -> Mat,      // mult(a.T, x)
    multNT: (Mat, Mat) -> Mat,     // mult(a, x.T)
    add: (Mat, Mat) -> Mat,        // a + x, elementwise
    addBias: (Mat, Mat) -> Mat,    // m + b, b one column broadcast over m
    hadamard: (Mat, Mat) -> Mat,   // a * x, elementwise
    divide: (Mat, nat) -> Mat,     // m / n
    rowSum: Mat -> Mat,            // m.sum(axis=-1).reshape((-1, 1))
    getNl: string -> Mat -> Mat,   // get_nl(name)
    getNlGrad: (string, Mat) -> Mat, // get_nl_grad(name, acts)
    softmax: Mat -> Mat,           // column-wise softmax
    log: real -> real,             // elementwise natural logarithm
    ylInit: (nat, nat, nat) -> Mat // ylInit(n, rows, cols): the n-th call yl_init((rows, cols)) of the random stream
  )
  {
    /** Every kernel keeps the column count the network's slicing depends on. */
    ghost predicate Valid() {
      && (forall a, x :: |mult(a, x)| == |x|)
      && (forall a, x :: |multT(a, x)| == |x|)
      && (forall a, x :: |add(a, x)| == |a|)
      && (forall m, b :: |addBias(m, b)| == |m|)
      && (forall a, x :: |hadamard(a, x)| == |a|)
      && (forall name, m :: |getNl(name)(m)| == |m|)
      && (forall name, m :: |getNlGrad(name, m)| == |m|)
      && (forall m :: |softmax(m)| == |m|)
      && (forall n, rows, cols :: IsShape(ylInit(n, rows, cols), rows, cols))
    }
  }

  /** A nonlinearity applied elementwise keeps the column count. */
  ghost predicate KeepsWidth(f: Mat -> Mat) {
    forall m :: |f(m)| == |m|
  }
}
