/**
 * The Matrix operations of the DigitRecognition app: the two products and the affine map
 * W x + b. Each allocates its result and leaves its inputs alone.
 */
module MatrixOps {
  import S = LinAlgSpec
  import K = Kernels
  import opened Buffers

  /** M * v, for M.cols == v.count: entry i is row i of M dotted with v. */
  method TimesVector(m: Matrix, v: Vector) returns (r: Vector)
    requires m.Valid() && m.cols == v.count
    ensures fresh(r.buffer) && r.count == m.rows
    ensures r.Elements() == S.MatVec(m.Elements(), m.rows, m.cols, v.Elements())
  {
    r := new Vector.Repeating(0.0, m.rows);
    K.Mmul(m.buffer, v.buffer, r.buffer, m.rows, 1, m.cols);
    assert v.buffer[..] == v.Elements();
    S.MatMatOneColumn(m.buffer[..], m.rows, m.cols, v.buffer[..]);
  }

  /** A * B, for A.cols == B.rows: an A.rows x B.cols matrix of row-by-column dots. */
  method TimesMatrix(a: Matrix, b: Matrix) returns (r: Matrix)
    requires a.Valid() && b.Valid() && a.cols == b.rows
    ensures fresh(r.buffer) && r.Valid() && r.rows == a.rows && r.cols == b.cols
    ensures r.Elements() == S.MatMat(a.Elements(), b.Elements(), a.rows, a.cols, b.cols)
  {
    r := new Matrix.Repeating(0.0, a.rows, b.cols);
    K.Mmul(a.buffer, b.buffer, r.buffer, a.rows, b.cols, a.cols);
  }

  /**
   * multiplied(by:plus:): y starts as a copy of b and sgemv adds 1 * M x to 1 * y, so the
   * result is M x + b and b itself is untouched.
   */
  method MultipliedPlus(m: Matrix, x: Vector, b: Vector) returns (y: Vector)
    requires m.Valid() && m.cols == x.count && m.rows == b.count
    ensures fresh(y.buffer) && y.count == m.rows
    ensures y.Elements() == S.Affine(m.Elements(), m.rows, m.cols, x.Elements(), b.Elements())
  {
    y := new Vector.Copy(b);
    K.Gemv(m.rows, m.cols, 1.0, m.buffer, x.buffer, 1.0, y.buffer);
    S.GemvIsAffine(m.buffer[..], m.rows, m.cols, x.buffer[..], b.buffer[..]);
  }
}
