/**
 * The two-hidden-layer perceptron of the DigitRecognition app: three affine layers with
 * ReLU between them, softmax on the output, trained one sample at a time by SGD with the
 * softmax/cross-entropy gradient. The spec functions below give the values one training
 * step computes; the class runs the same computation on its buffers, in place.
 */
module TwoHiddenLayer {
  import S = LinAlgSpec
  import opened Buffers
  import VectorOps
  import MatrixOps
  import RowLoops

  /** Layer sizes: W1 is hidden1 x input, W2 is hidden2 x hidden1, W3 is output x hidden2. */
  datatype Shape = Shape(input: nat, hidden1: nat, hidden2: nat, output: nat)

  /** The contents of the six parameter buffers. */
  datatype Params = Params(w1: seq<real>, b1: seq<real>, w2: seq<real>, b2: seq<real>, w3: seq<real>, b3: seq<real>)

  ghost predicate Fits(sh: Shape, p: Params)
  {
    && |p.w1| == sh.hidden1 * sh.input && |p.b1| == sh.hidden1
    && |p.w2| == sh.hidden2 * sh.hidden1 && |p.b2| == sh.hidden2
    && |p.w3| == sh.output * sh.hidden2 && |p.b3| == sh.output
  }

  /** Everything one training step computes before it writes a parameter. */
  datatype Pass = Pass(
    z1: seq<real>, a1: seq<real>, z2: seq<real>, a2: seq<real>, z3: seq<real>, y: seq<real>,
    delta3: seq<real>, delta2: seq<real>, delta1: seq<real>)

  /**
   * The forward pass and the back-propagated deltas, all from the parameters p as they are
   * before the step: delta3 = y - t, and each hidden delta is the next delta times the next
   * layer's weights, masked by ReLU' of the layer's pre-activation.
   */
  function Backprop(sh: Shape, p: Params, x: seq<real>, t: seq<real>, softmax: S.Softmax): Pass
    requires Fits(sh, p) && |x| == sh.input && |t| == sh.output
  {
    var z1 := S.Affine(p.w1, sh.hidden1, sh.input, x, p.b1);
    var a1 := S.Relu(z1);
    var z2 := S.Affine(p.w2, sh.hidden2, sh.hidden1, a1, p.b2);
    var a2 := S.Relu(z2);
    var z3 := S.Affine(p.w3, sh.output, sh.hidden2, a2, p.b3);
    var y := softmax(z3);
    var delta3 := S.Minus(y, t);
    var delta2 := S.Hadamard(S.VecMat(delta3, p.w3, sh.output, sh.hidden2), S.ReluPrime(z2));
    var delta1 := S.Hadamard(S.VecMat(delta2, p.w2, sh.hidden2, sh.hidden1), S.ReluPrime(z1));
    Pass(z1, a1, z2, a2, z3, y, delta3, delta2, delta1)
  }

  /** The parameters after one training step on (x, t). */
  function Step(sh: Shape, p: Params, x: seq<real>, t: seq<real>, lr: real, softmax: S.Softmax): Params
    requires Fits(sh, p) && |x| == sh.input && |t| == sh.output
  {
    var g := Backprop(sh, p, x, t, softmax);
    Params(
      S.OuterUpdate(p.w1, g.delta1, x, lr), S.Descend(p.b1, g.delta1, lr),
      S.OuterUpdate(p.w2, g.delta2, g.a1, lr), S.Descend(p.b2, g.delta2, lr),
      S.OuterUpdate(p.w3, g.delta3, g.a2, lr), S.Descend(p.b3, g.delta3, lr))
  }

  /** What inference returns: the network's output on x. */
  function Predict(sh: Shape, p: Params, x: seq<real>, softmax: S.Softmax): seq<real>
    requires Fits(sh, p) && |x| == sh.input
  {
    var a1 := S.Relu(S.Affine(p.w1, sh.hidden1, sh.input, x, p.b1));
    var a2 := S.Relu(S.Affine(p.w2, sh.hidden2, sh.hidden1, a1, p.b2));
    softmax(S.Affine(p.w3, sh.output, sh.hidden2, a2, p.b3))
  }

  // ---------------------------------------------------------------------------
  // Properties of one step

  /**
   * inference(of: x) returns the y that train(x:t:) computes from the same parameters. It
   * holds by definition, since Predict and Backprop spell out the same forward chain.
   */
  lemma PredictIsTrainingOutput(sh: Shape, p: Params, x: seq<real>, t: seq<real>, softmax: S.Softmax)
    requires Fits(sh, p) && |x| == sh.input && |t| == sh.output
    ensures |Predict(sh, p, x, softmax)| == sh.output
    ensures Predict(sh, p, x, softmax) == Backprop(sh, p, x, t, softmax).y
  {
  }

  /** The deltas have the lengths of their layers, and a hidden delta is 0 where its unit is off. */
  lemma DeltasMasked(sh: Shape, p: Params, x: seq<real>, t: seq<real>, softmax: S.Softmax)
    requires Fits(sh, p) && |x| == sh.input && |t| == sh.output
    ensures var g := Backprop(sh, p, x, t, softmax);
      && |g.delta3| == sh.output && |g.delta2| == sh.hidden2 && |g.delta1| == sh.hidden1
      && (forall i :: 0 <= i < sh.hidden2 && g.z2[i] <= 0.0 ==> g.delta2[i] == 0.0)
      && (forall i :: 0 <= i < sh.hidden1 && g.z1[i] <= 0.0 ==> g.delta1[i] == 0.0)
  {
  }

  /** A step keeps every parameter's shape. */
  lemma StepFits(sh: Shape, p: Params, x: seq<real>, t: seq<real>, lr: real, softmax: S.Softmax)
    requires Fits(sh, p) && |x| == sh.input && |t| == sh.output
    ensures Fits(sh, Step(sh, p, x, t, lr, softmax))
  {
    var g := Backprop(sh, p, x, t, softmax);
    S.OuterUpdateLength(p.w1, g.delta1, x, lr);
    S.OuterUpdateLength(p.w2, g.delta2, g.a1, lr);
    S.OuterUpdateLength(p.w3, g.delta3, g.a2, lr);
  }

  /**
   * The step is plain gradient descent: each W_l moves by -lr times the outer product of its
   * delta and its input activation, each b_l by -lr times its delta.
   */
  lemma StepIsGradientDescent(sh: Shape, p: Params, x: seq<real>, t: seq<real>, lr: real, softmax: S.Softmax)
    requires Fits(sh, p) && |x| == sh.input && |t| == sh.output
    ensures var g := Backprop(sh, p, x, t, softmax);
      var q := Step(sh, p, x, t, lr, softmax);
      && |S.Outer(g.delta1, x)| == |p.w1| && q.w1 == S.Plus(p.w1, S.Scale(S.Outer(g.delta1, x), -lr))
      && |S.Outer(g.delta2, g.a1)| == |p.w2| && q.w2 == S.Plus(p.w2, S.Scale(S.Outer(g.delta2, g.a1), -lr))
      && |S.Outer(g.delta3, g.a2)| == |p.w3| && q.w3 == S.Plus(p.w3, S.Scale(S.Outer(g.delta3, g.a2), -lr))
      && q.b1 == S.Plus(p.b1, S.Scale(g.delta1, -lr))
      && q.b2 == S.Plus(p.b2, S.Scale(g.delta2, -lr))
      && q.b3 == S.Plus(p.b3, S.Scale(g.delta3, -lr))
  {
    var g := Backprop(sh, p, x, t, softmax);
    S.OuterUpdateIsOuterStep(p.w1, g.delta1, x, lr);
    S.OuterUpdateIsOuterStep(p.w2, g.delta2, g.a1, lr);
    S.OuterUpdateIsOuterStep(p.w3, g.delta3, g.a2, lr);
    S.DescendIsStep(p.b1, g.delta1, lr);
    S.DescendIsStep(p.b2, g.delta2, lr);
    S.DescendIsStep(p.b3, g.delta3, lr);
  }

  // ---------------------------------------------------------------------------
  // The in-place helpers

  /**
   * transposeMultiply(u): v = W^T u, accumulated row by row as v += u[j] * (row j of W);
   * the result is u * W, entry i the dot of u with column i.
   */
  method TransposeMultiply(w: Matrix, u: Vector) returns (v: Vector)
    requires w.Valid() && u.count == w.rows
    ensures fresh(v.buffer) && v.count == w.cols
    ensures v.Elements() == S.VecMat(u.Elements(), w.Elements(), w.rows, w.cols)
  {
    var out, inn := w.rows, w.cols;
    v := new Vector.Repeating(0.0, inn);
    ghost var W, U := w.buffer[..], u.buffer[..];
    assert v.buffer[..] == S.RowCombination(W, out, inn, U, 0);
    var j: nat, rowStart: nat := 0, 0;
    while j < out
      invariant j <= out && rowStart == j * inn
      invariant w.buffer[..] == W && u.buffer[..] == U
      invariant v.buffer[..] == S.RowCombination(W, out, inn, U, j)
    {
      S.RowFits(j, out, inn);
      AccumulateRow(v.buffer, w.buffer, u.buffer[j], rowStart);
      S.NextRowStart(j, inn);
      j, rowStart := j + 1, rowStart + inn;
    }
    S.RowCombinationIsVecMat(W, out, inn, U);
  }

  /** The inner loop of transposeMultiply: v[i] += scale * w[rowStart + i] for every i. */
  method AccumulateRow(v: array<real>, w: array<real>, scale: real, rowStart: nat)
    requires v != w && rowStart + v.Length <= w.Length
    modifies v
    ensures v[..] == S.Axpy(w[rowStart..rowStart + v.Length], scale, old(v[..]))
  {
    ghost var v0 := v[..];
    var i := 0;
    while i < v.Length
      invariant 0 <= i <= v.Length
      invariant forall k :: 0 <= k < i ==> v[k] == v0[k] + scale * w[rowStart + k]
      invariant forall k :: i <= k < v.Length ==> v[k] == v0[k]
    {
      v[i] := v[i] + scale * w[rowStart + i];
      i := i + 1;
    }
    ghost var row := w[rowStart..rowStart + v.Length];
    forall k | 0 <= k < v.Length
      ensures v[k] == S.Axpy(row, scale, v0)[k]
    {
      assert row[k] == w[rowStart + k];
    }
  }

  /**
   * rowWiseUpdate: for every j < delta.count, row j of W (row length prevAct.count) becomes
   * row - lr * delta[j] * prevAct; the entries past delta.count * prevAct.count are kept.
   * The shape of W is not checked, only that the rows written lie inside its buffer.
   */
  method RowWiseUpdate(w: Matrix, delta: Vector, prevAct: Vector, lr: real)
    requires delta.count * prevAct.count <= w.buffer.Length
    requires w.buffer != delta.buffer && w.buffer != prevAct.buffer
    modifies w.buffer
    ensures w.Elements() == S.OuterUpdate(old(w.Elements()), delta.Elements(), prevAct.Elements(), lr)
  {
    ghost var W0, D, P, n := w.buffer[..], delta.buffer[..], prevAct.buffer[..], prevAct.count;
    S.PartialOuterUpdateStart(W0, D, P, lr);
    var j: nat, base: nat := 0, 0;
    while j < delta.count
      invariant 0 <= j <= delta.count && base == j * n
      invariant delta.buffer[..] == D && prevAct.buffer[..] == P
      invariant w.buffer[..] == S.PartialOuterUpdate(W0, D, P, lr, j)
    {
      var scaled := VectorOps.Scaled(prevAct, delta.buffer[j]);
      RowLoops.AddScaledRow(w.buffer, scaled.buffer, lr, base, W0, D, P, j);
      S.NextRowStart(j, n);
      j, base := j + 1, base + prevAct.count;
    }
    S.PartialOuterUpdateEnd(W0, D, P, lr);
  }

  /**
   * One layer's two updates in train(x:t:): rowWiseUpdate on W, then b -= lr * delta through
   * multiplied(by:plus:) on b's buffer.
   */
  method UpdateLayer(w: Matrix, b: Vector, delta: Vector, prevAct: Vector, lr: real)
    requires delta.count * prevAct.count <= w.buffer.Length && delta.count <= b.count
    requires w.buffer != b.buffer && w.buffer != delta.buffer && w.buffer != prevAct.buffer
    requires b.buffer != delta.buffer && b.buffer != prevAct.buffer
    modifies w.buffer, b.buffer
    ensures w.Elements() == S.OuterUpdate(old(w.Elements()), delta.Elements(), prevAct.Elements(), lr)
    ensures b.Elements() == S.Descend(old(b.Elements()), delta.Elements(), lr)
  {
    RowWiseUpdate(w, delta, prevAct, lr);
    ghost var b0 := b.buffer[..];
    VectorOps.MultipliedPlusInto(delta, -lr, b.buffer, 0);
    S.AxpyIntoIsDescend(b0, delta.Elements(), lr);
  }

  // ---------------------------------------------------------------------------
  // The model

  const DefaultHidden1: nat := 512
  const DefaultHidden2: nat := 256
  const DefaultLearningRate: real := 0.01

  class SGDTwoHiddenLayer {
    const inputSize: nat
    const hidden1: nat
    const hidden2: nat
    const outputSize: nat
    const w1: Matrix
    const b1: Vector
    const w2: Matrix
    const b2: Vector
    const w3: Matrix
    const b3: Vector
    const learningRate: real

    ghost function Sizes(): Shape
    {
      Shape(inputSize, hidden1, hidden2, outputSize)
    }

    ghost function Parameters(): Params
      reads w1.buffer, b1.buffer, w2.buffer, b2.buffer, w3.buffer, b3.buffer
    {
      Params(w1.buffer[..], b1.buffer[..], w2.buffer[..], b2.buffer[..], w3.buffer[..], b3.buffer[..])
    }

    /** The shapes the initialiser gives, and six separate buffers. */
    ghost predicate Valid()
    {
      && w1.Valid() && w1.rows == hidden1 && w1.cols == inputSize && b1.count == hidden1
      && w2.Valid() && w2.rows == hidden2 && w2.cols == hidden1 && b2.count == hidden2
      && w3.Valid() && w3.rows == outputSize && w3.cols == hidden2 && b3.count == outputSize
      && w1.buffer != w2.buffer && w1.buffer != w3.buffer && w2.buffer != w3.buffer
      && b1.buffer != b2.buffer && b1.buffer != b3.buffer && b2.buffer != b3.buffer
      && w1.buffer != b1.buffer && w1.buffer != b2.buffer && w1.buffer != b3.buffer
      && w2.buffer != b1.buffer && w2.buffer != b2.buffer && w2.buffer != b3.buffer
      && w3.buffer != b1.buffer && w3.buffer != b2.buffer && w3.buffer != b3.buffer
    }

    /**
     * init: the weights are the given values (drawn at random in the source), the biases
     * zero; hidden sizes and learning rate default to 512, 256 and 0.01.
     */
    constructor (inputVectorSize: nat, outputVectorSize: nat,
                 values1: seq<real>, values2: seq<real>, values3: seq<real>,
                 hidden1: nat := DefaultHidden1, hidden2: nat := DefaultHidden2,
                 learningRate: real := DefaultLearningRate)
      requires |values1| == hidden1 * inputVectorSize
      requires |values2| == hidden2 * hidden1
      requires |values3| == outputVectorSize * hidden2
      ensures Valid() && Sizes() == Shape(inputVectorSize, hidden1, hidden2, outputVectorSize)
      ensures this.learningRate == learningRate
      ensures Parameters() == Params(values1, seq(hidden1, i => 0.0), values2, seq(hidden2, i => 0.0),
                                     values3, seq(outputVectorSize, i => 0.0))
    {
      inputSize, this.hidden1, this.hidden2, outputSize := inputVectorSize, hidden1, hidden2, outputVectorSize;
      this.learningRate := learningRate;
      w1 := new Matrix(values1, hidden1, inputVectorSize);
      b1 := new Vector.Repeating(0.0, hidden1);
      w2 := new Matrix(values2, hidden2, hidden1);
      b2 := new Vector.Repeating(0.0, hidden2);
      w3 := new Matrix(values3, outputVectorSize, hidden2);
      b3 := new Vector.Repeating(0.0, outputVectorSize);
    }

    /**
     * train(x:t:): the forward pass, all three deltas, then the six updates, so every delta
     * and activation comes from the parameters as they were before the step.
     */
    method Train(x: Vector, t: Vector, softmax: S.Softmax)
      requires Valid() && x.count == inputSize && t.count == outputSize
      requires Outside(x.buffer) && Outside(t.buffer)
      modifies w1.buffer, b1.buffer, w2.buffer, b2.buffer, w3.buffer, b3.buffer
      ensures Fits(Sizes(), Parameters())
      ensures Parameters() == Step(Sizes(), old(Parameters()), old(x.Elements()), old(t.Elements()), learningRate, softmax)
    {
      ghost var p, xs, ts := Parameters(), x.Elements(), t.Elements();
      var a1, a2, delta3, delta2, delta1 := Gradients(x, t, softmax);
      Update(x, a1, a2, delta3, delta2, delta1);
      StepFits(Sizes(), p, xs, ts, learningRate, softmax);
    }

    /** Not one of the six parameter buffers. */
    ghost predicate Outside(a: array<real>)
    {
      a != w1.buffer && a != w2.buffer && a != w3.buffer && a != b1.buffer && a != b2.buffer && a != b3.buffer
    }

    /** The two passes of train(x:t:): the hidden activations and the deltas, as Backprop has them. */
    method Gradients(x: Vector, t: Vector, softmax: S.Softmax)
      returns (a1: Vector, a2: Vector, delta3: Vector, delta2: Vector, delta1: Vector)
      requires Valid() && x.count == inputSize && t.count == outputSize
      ensures fresh(a1.buffer) && fresh(a2.buffer) && fresh(delta3.buffer) && fresh(delta2.buffer) && fresh(delta1.buffer)
      ensures delta3.buffer != delta2.buffer && delta3.buffer != delta1.buffer && delta2.buffer != delta1.buffer
      ensures var g := Backprop(Sizes(), Parameters(), x.Elements(), t.Elements(), softmax);
        && a1.Elements() == g.a1 && a2.Elements() == g.a2
        && delta3.Elements() == g.delta3 && delta2.Elements() == g.delta2 && delta1.Elements() == g.delta1
    {
      ghost var p, xs, ts := Parameters(), x.Elements(), t.Elements();
      var z1, z2, y;
      z1, a1, z2, a2, y := Forward(x, softmax);
      delta3, delta2, delta1 := Backward(z1, z2, y, t);
      assert Parameters() == p && x.Elements() == xs && t.Elements() == ts;
    }

    /**
     * The six updates of train(x:t:), layer 3 first: each W_l by rowWiseUpdate with its delta
     * and input activation, each b_l by -lr times its delta.
     */
    method Update(x: Vector, a1: Vector, a2: Vector, delta3: Vector, delta2: Vector, delta1: Vector)
      requires Valid() && x.count == inputSize && a1.count == hidden1 && a2.count == hidden2
      requires delta3.count == outputSize && delta2.count == hidden2 && delta1.count == hidden1
      requires Outside(x.buffer) && Outside(a1.buffer) && Outside(a2.buffer)
      requires Outside(delta3.buffer) && Outside(delta2.buffer) && Outside(delta1.buffer)
      modifies w1.buffer, b1.buffer, w2.buffer, b2.buffer, w3.buffer, b3.buffer
      ensures Parameters() == Params(
        S.OuterUpdate(old(w1.Elements()), old(delta1.Elements()), old(x.Elements()), learningRate),
        S.Descend(old(b1.Elements()), old(delta1.Elements()), learningRate),
        S.OuterUpdate(old(w2.Elements()), old(delta2.Elements()), old(a1.Elements()), learningRate),
        S.Descend(old(b2.Elements()), old(delta2.Elements()), learningRate),
        S.OuterUpdate(old(w3.Elements()), old(delta3.Elements()), old(a2.Elements()), learningRate),
        S.Descend(old(b3.Elements()), old(delta3.Elements()), learningRate))
    {
      UpdateLayer(w3, b3, delta3, a2, learningRate);
      UpdateLayer(w2, b2, delta2, a1, learningRate);
      UpdateLayer(w1, b1, delta1, x, learningRate);
    }

    /** The forward pass of train(x:t:), each layer's values in a fresh buffer. */
    method Forward(x: Vector, softmax: S.Softmax) returns (z1: Vector, a1: Vector, z2: Vector, a2: Vector, y: Vector)
      requires Valid() && x.count == inputSize
      ensures fresh(z1.buffer) && fresh(a1.buffer) && fresh(z2.buffer) && fresh(a2.buffer) && fresh(y.buffer)
      ensures z1.Elements() == S.Affine(w1.Elements(), hidden1, inputSize, x.Elements(), b1.Elements())
      ensures a1.Elements() == S.Relu(z1.Elements())
      ensures z2.Elements() == S.Affine(w2.Elements(), hidden2, hidden1, a1.Elements(), b2.Elements())
      ensures a2.Elements() == S.Relu(z2.Elements())
      ensures y.Elements() == softmax(S.Affine(w3.Elements(), outputSize, hidden2, a2.Elements(), b3.Elements()))
    {
      z1 := MatrixOps.MultipliedPlus(w1, x, b1);
      a1 := VectorOps.Relu(z1);
      z2 := MatrixOps.MultipliedPlus(w2, a1, b2);
      a2 := VectorOps.Relu(z2);
      var z3 := MatrixOps.MultipliedPlus(w3, a2, b3);
      y := VectorOps.Softmax(z3, softmax);
    }

    /**
     * The backward pass of train(x:t:): delta3 = y - t, then each hidden delta is the next
     * delta through the transposed weights, masked in place by ReLU' of the pre-activation.
     */
    method Backward(z1: Vector, z2: Vector, y: Vector, t: Vector) returns (delta3: Vector, delta2: Vector, delta1: Vector)
      requires Valid() && z1.count == hidden1 && z2.count == hidden2 && y.count == outputSize && t.count == outputSize
      ensures fresh(delta3.buffer) && fresh(delta2.buffer) && fresh(delta1.buffer)
      ensures delta3.buffer != delta2.buffer && delta3.buffer != delta1.buffer && delta2.buffer != delta1.buffer
      ensures delta3.Elements() == S.Minus(y.Elements(), t.Elements())
      ensures delta2.Elements() == S.Hadamard(S.VecMat(delta3.Elements(), w3.Elements(), outputSize, hidden2), S.ReluPrime(z2.Elements()))
      ensures delta1.Elements() == S.Hadamard(S.VecMat(delta2.Elements(), w2.Elements(), hidden2, hidden1), S.ReluPrime(z1.Elements()))
    {
      delta3 := VectorOps.Subtract(y, t);
      delta2 := TransposeMultiply(w3, delta3);
      var rp2 := VectorOps.ReluPrime(z2);
      VectorOps.FormMultiplyInPlace(delta2, rp2);
      delta1 := TransposeMultiply(w2, delta2);
      var rp1 := VectorOps.ReluPrime(z1);
      VectorOps.FormMultiplyInPlace(delta1, rp1);
    }

    /** inference(of:): the network's output on x; no parameter changes. */
    method Inference(x: Vector, softmax: S.Softmax) returns (r: Vector)
      requires Valid() && x.count == inputSize
      ensures fresh(r.buffer)
      ensures r.Elements() == Predict(Sizes(), Parameters(), x.Elements(), softmax)
    {
      var z1 := MatrixOps.MultipliedPlus(w1, x, b1);
      var a1 := VectorOps.Relu(z1);
      var z2 := MatrixOps.MultipliedPlus(w2, a1, b2);
      var a2 := VectorOps.Relu(z2);
      var z3 := MatrixOps.MultipliedPlus(w3, a2, b3);
      r := VectorOps.Softmax(z3, softmax);
    }
  }
}
