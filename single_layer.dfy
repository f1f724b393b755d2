/**
 * The single-layer softmax classifier of the LinearAlgebraDemo app: logits W x + b, softmax,
 * and one SGD step per sample with the softmax/cross-entropy gradient (y - t) x^T. The
 * weights are written row by row in place, then the bias.
 */
module SingleLayer {
  import S = LinAlgSpec
  import opened Buffers
  import VectorOps
  import MatrixOps
  import RowLoops

  /** The contents of the two parameter buffers. */
  datatype Params = Params(w: seq<real>, b: seq<real>)

  /** W is rows x cols and b has one entry per row. */
  ghost predicate Fits(rows: nat, cols: nat, p: Params)
  {
    |p.w| == rows * cols && |p.b| == rows
  }

  /** What inference returns: softmax(W x + b). */
  function Predict(rows: nat, cols: nat, p: Params, x: seq<real>, softmax: S.Softmax): (y: seq<real>)
    requires Fits(rows, cols, p) && |x| == cols
    ensures |y| == rows
  {
    softmax(S.Affine(p.w, rows, cols, x, p.b))
  }

  /** The gradient of the loss with respect to the logits, y - t, from the parameters before the step. */
  function Error(rows: nat, cols: nat, p: Params, x: seq<real>, t: seq<real>, softmax: S.Softmax): (e: seq<real>)
    requires Fits(rows, cols, p) && |x| == cols && |t| == rows
    ensures |e| == rows
  {
    S.Minus(Predict(rows, cols, p, x, softmax), t)
  }

  /** The parameters after one training step on (x, t). */
  function Step(rows: nat, cols: nat, p: Params, x: seq<real>, t: seq<real>, lr: real, softmax: S.Softmax): Params
    requires Fits(rows, cols, p) && |x| == cols && |t| == rows
  {
    var e := Error(rows, cols, p, x, t, softmax);
    Params(S.OuterUpdate(p.w, e, x, lr), S.Descend(p.b, e, lr))
  }

  /**
   * The step is gradient descent on both parameters: W moves by -lr times the outer product
   * error x^T, b by -lr times the error, and both keep their shapes.
   */
  lemma StepIsGradientDescent(rows: nat, cols: nat, p: Params, x: seq<real>, t: seq<real>, lr: real, softmax: S.Softmax)
    requires Fits(rows, cols, p) && |x| == cols && |t| == rows
    ensures var e := Error(rows, cols, p, x, t, softmax);
      var q := Step(rows, cols, p, x, t, lr, softmax);
      && Fits(rows, cols, q)
      && |S.Outer(e, x)| == |p.w| && q.w == S.Plus(p.w, S.Scale(S.Outer(e, x), -lr))
      && q.b == S.Plus(p.b, S.Scale(e, -lr))
  {
    var e := Error(rows, cols, p, x, t, softmax);
    S.OuterUpdateIsOuterStep(p.w, e, x, lr);
    S.DescendIsStep(p.b, e, lr);
  }

  const LearningRate: real := 0.01

  class SGDSingleLayer {
    const w: Matrix
    const b: Vector
    const learningRate: real

    ghost function Parameters(): Params
      reads w.buffer, b.buffer
    {
      Params(w.Elements(), b.Elements())
    }

    /** Each parameter has its own buffer, and b has one entry per row of W. */
    ghost predicate Valid()
    {
      w.Valid() && b.count == w.rows && w.buffer != b.buffer
    }

    /**
     * init(inputCount:outputCount:): W is inputCount x outputCount, every weight 0.01, and b
     * is inputCount zeros; so W x + b type-checks for inputs of outputCount entries.
     */
    constructor (inputCount: nat, outputCount: nat)
      ensures Valid() && w.rows == inputCount && w.cols == outputCount && learningRate == LearningRate
      ensures Parameters() == Params(seq(inputCount * outputCount, i => 0.01), seq(inputCount, i => 0.0))
    {
      w := new Matrix.Repeating(0.01, inputCount, outputCount);
      b := new Vector.Repeating(0.0, inputCount);
      learningRate := LearningRate;
    }

    /**
     * train(x:t:): the error from the parameters as they are, then row i of W (x.count
     * entries from i * x.count) gets -lr * x * error[i] for every i < t.count, then b gets
     * -lr * error. The shapes must be those of W x + b and of y - t.
     */
    method Train(x: Vector, t: Vector, softmax: S.Softmax)
      requires Valid() && x.count == w.cols && t.count == w.rows
      requires x.buffer != w.buffer && x.buffer != b.buffer && t.buffer != w.buffer && t.buffer != b.buffer
      modifies w.buffer, b.buffer
      ensures Parameters() == Step(w.rows, w.cols, old(Parameters()), old(x.Elements()), old(t.Elements()), learningRate, softmax)
    {
      var error := ComputeError(x, t, softmax);
      UpdateWeights(x, error);
      UpdateBias(error);
    }

    /** Step 4 of train(x:t:): for i < error.count, row i of W gets -lr * x * error[i]. */
    method UpdateWeights(x: Vector, error: Vector)
      requires Valid() && x.count == w.cols && error.count == w.rows
      requires x.buffer != w.buffer && error.buffer != w.buffer
      modifies w.buffer
      ensures w.Elements() == S.OuterUpdate(old(w.Elements()), error.Elements(), x.Elements(), learningRate)
    {
      ghost var W0, E, X := w.Elements(), error.Elements(), x.Elements();
      S.PartialOuterUpdateStart(W0, E, X, learningRate);
      var i: nat, gradRowStart: nat := 0, 0;
      while i < error.count
        invariant i <= error.count && gradRowStart == i * x.count
        invariant error.buffer[..] == E && x.buffer[..] == X
        invariant w.buffer[..] == S.PartialOuterUpdate(W0, E, X, learningRate, i)
      {
        var scaledX := VectorOps.Scaled(x, error.buffer[i]);
        RowLoops.AddScaledRow(w.buffer, scaledX.buffer, learningRate, gradRowStart, W0, E, X, i);
        S.NextRowStart(i, x.count);
        i, gradRowStart := i + 1, gradRowStart + x.count;
      }
      S.PartialOuterUpdateEnd(W0, E, X, learningRate);
    }

    /** Step 5 of train(x:t:): b -= lr * error, through multiplied(by:plus:) on b's buffer. */
    method UpdateBias(error: Vector)
      requires Valid() && error.count == b.count && error.buffer != b.buffer
      modifies b.buffer
      ensures b.Elements() == S.Descend(old(b.Elements()), error.Elements(), learningRate)
    {
      ghost var b0 := b.Elements();
      VectorOps.MultipliedPlusInto(error, -learningRate, b.buffer, 0);
      S.AxpyIntoIsDescend(b0, error.Elements(), learningRate);
    }

    /** The first three steps of train(x:t:): logits, softmax, error = y - t. */
    method ComputeError(x: Vector, t: Vector, softmax: S.Softmax) returns (error: Vector)
      requires Valid() && x.count == w.cols && t.count == w.rows
      ensures fresh(error.buffer) && error.count == w.rows
      ensures error.Elements() == Error(w.rows, w.cols, Parameters(), x.Elements(), t.Elements(), softmax)
    {
      var z := MatrixOps.MultipliedPlus(w, x, b);
      var y := VectorOps.Softmax(z, softmax);
      error := VectorOps.Subtract(y, t);
    }

    /** inference(of:): softmax(W x + b); no parameter changes. */
    method Inference(x: Vector, softmax: S.Softmax) returns (r: Vector)
      requires Valid() && x.count == w.cols
      ensures fresh(r.buffer)
      ensures r.Elements() == Predict(w.rows, w.cols, Parameters(), x.Elements(), softmax)
    {
      var z := MatrixOps.MultipliedPlus(w, x, b);
      r := VectorOps.Softmax(z, softmax);
    }
  }
}
