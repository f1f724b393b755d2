/**
 * The free-standing routines of the LinearAlgebraDemo app: test(x:w:b:) and
 * trainStep(x:t:w:b:learningRate:), the single-layer classifier written directly on the
 * vDSP / cBLAS kernels. Neither checks the shape of w: they read and write the first
 * numClasses * x.count entries of its buffer as numClasses rows of x.count entries.
 */
module LinearAlgebra {
  import S = LinAlgSpec
  import K = Kernels
  import opened Buffers
  import VectorOps
  import RowLoops

  /** The logits of the first `rows` classes: rows x |x| weights times x, plus the first rows biases. */
  function Logits(w: seq<real>, b: seq<real>, rows: nat, x: seq<real>): (z: seq<real>)
    requires rows * |x| <= |w| && rows <= |b|
    ensures |z| == rows
  {
    S.Affine(w, rows, |x|, x, b[..rows])
  }

  /** y - t with y = softmax of the logits, for t.count classes. */
  function Error(w: seq<real>, b: seq<real>, x: seq<real>, t: seq<real>, softmax: S.Softmax): (e: seq<real>)
    requires |t| * |x| <= |w| && |t| <= |b|
    ensures |e| == |t|
  {
    S.Minus(softmax(Logits(w, b, |t|, x)), t)
  }

  /**
   * Both routines' first step: y zeroed, sgemv with alpha 1 and beta 0 (y := W x), then
   * vDSP_vadd(b, y, y) (y := b + y).
   */
  method ComputeLogits(x: Vector, w: Matrix, b: Vector, numClasses: nat) returns (z: Vector)
    requires numClasses * x.count <= w.buffer.Length && numClasses <= b.count
    ensures fresh(z.buffer) && z.count == numClasses
    ensures z.Elements() == Logits(w.Elements(), b.Elements(), numClasses, x.Elements())
  {
    var inputSize := x.count;
    z := new Vector.Repeating(0.0, numClasses);
    K.Gemv(numClasses, inputSize, 1.0, w.buffer, x.buffer, 0.0, z.buffer);
    S.GemvIsMatVec(w.buffer[..], numClasses, inputSize, x.buffer[..], seq(numClasses, i => 0.0));
    ghost var product := z.buffer[..];
    K.Vadd(b.buffer, z.buffer, z.buffer, numClasses);
    S.PlusCommutes(b.buffer[..numClasses], product);
  }

  /** test(x:w:b:): softmax(W x + b) over w.rows classes; w and b are only read. */
  method Test(x: Vector, w: Matrix, b: Vector, softmax: S.Softmax) returns (y: Vector)
    requires w.rows * x.count <= w.buffer.Length && w.rows <= b.count
    ensures fresh(y.buffer) && y.count == w.rows
    ensures y.Elements() == softmax(Logits(w.Elements(), b.Elements(), w.rows, x.Elements()))
  {
    var z := ComputeLogits(x, w, b, w.rows);
    y := VectorOps.Softmax(z, softmax);
  }

  /**
   * trainStep: the error from the parameters as they are, then for i < t.count row i
   * (x.count entries from i * x.count) gets -lr * error[i] * x, then the first t.count
   * biases get -lr * error. Everything else in w and b, and x and t, are left alone.
   */
  method TrainStep(x: Vector, t: Vector, w: Matrix, b: Vector, learningRate: real, softmax: S.Softmax)
    requires t.count * x.count <= w.buffer.Length && t.count <= b.count
    requires w.buffer != b.buffer && w.buffer != x.buffer && w.buffer != t.buffer
    requires b.buffer != x.buffer && b.buffer != t.buffer
    modifies w.buffer, b.buffer
    ensures var e := Error(old(w.Elements()), old(b.Elements()), x.Elements(), t.Elements(), softmax);
      && w.Elements() == S.OuterUpdate(old(w.Elements()), e, x.Elements(), learningRate)
      && b.Elements() == S.Descend(old(b.Elements()), e, learningRate)
  {
    var error := ComputeError(x, t, w, b, softmax);
    UpdateWeights(x, w, error, learningRate);
    UpdateBias(b, error, learningRate);
  }

  /** Steps 1 to 3 of trainStep: logits, softmax, then vDSP_vsub(t, y, error), i.e. y - t. */
  method ComputeError(x: Vector, t: Vector, w: Matrix, b: Vector, softmax: S.Softmax) returns (error: Vector)
    requires t.count * x.count <= w.buffer.Length && t.count <= b.count
    ensures fresh(error.buffer) && error.count == t.count
    ensures error.Elements() == Error(w.Elements(), b.Elements(), x.Elements(), t.Elements(), softmax)
  {
    var numClasses := t.count;
    var z := ComputeLogits(x, w, b, numClasses);
    var y := VectorOps.Softmax(z, softmax);
    error := new Vector.Repeating(0.0, numClasses);
    K.Vsub(t.buffer, y.buffer, error.buffer, numClasses);
    assert t.buffer[..numClasses] == t.Elements();
    assert y.buffer[..numClasses] == y.Elements();
  }

  /**
   * Step 4 of trainStep: for each class i, scaledX := x * error[i] by vDSP_vsmul into a
   * zeroed vector, then vDSP_vsma(scaledX, -lr, row, row) on row i of w.
   */
  method UpdateWeights(x: Vector, w: Matrix, error: Vector, learningRate: real)
    requires error.count * x.count <= w.buffer.Length
    requires w.buffer != x.buffer && w.buffer != error.buffer
    modifies w.buffer
    ensures w.Elements() == S.OuterUpdate(old(w.Elements()), error.Elements(), x.Elements(), learningRate)
  {
    ghost var W0, E, X := w.Elements(), error.Elements(), x.Elements();
    var numClasses, inputSize := error.count, x.count;
    S.PartialOuterUpdateStart(W0, E, X, learningRate);
    var i: nat, gradRowStart: nat := 0, 0;
    while i < numClasses
      invariant i <= numClasses && gradRowStart == i * inputSize
      invariant error.buffer[..] == E && x.buffer[..] == X
      invariant w.buffer[..] == S.PartialOuterUpdate(W0, E, X, learningRate, i)
    {
      var scaledX := new Vector.Repeating(0.0, inputSize);
      var scale := error.buffer[i];
      K.Vsmul(x.buffer, scale, scaledX.buffer, inputSize);
      assert x.buffer[..inputSize] == X;
      RowLoops.AddScaledRow(w.buffer, scaledX.buffer, learningRate, gradRowStart, W0, E, X, i);
      S.NextRowStart(i, inputSize);
      i, gradRowStart := i + 1, gradRowStart + inputSize;
    }
    S.PartialOuterUpdateEnd(W0, E, X, learningRate);
  }

  /** Step 5 of trainStep: vDSP_vsma(error, -lr, b, b) over the first error.count biases. */
  method UpdateBias(b: Vector, error: Vector, learningRate: real)
    requires error.count <= b.count && error.buffer != b.buffer
    modifies b.buffer
    ensures b.Elements() == S.Descend(old(b.Elements()), error.Elements(), learningRate)
  {
    ghost var b0 := b.Elements();
    K.VsmaInPlace(error.buffer, -learningRate, b.buffer, 0);
    S.AxpyIntoIsDescend(b0, error.Elements(), learningRate);
  }
}
