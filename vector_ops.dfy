/**
 * The Vector operations of the DigitRecognition app. Every operation allocates its result
 * (or names the one buffer it overwrites) and leaves its other inputs alone; each is one
 * kernel call, proved against the LinAlgSpec function that gives its index-level meaning.
 */
module VectorOps {
  import S = LinAlgSpec
  import K = Kernels
  import opened Buffers

  /** v * M, for v.count == M.rows: entry j is v dotted with column j of M. */
  method TimesMatrix(v: Vector, m: Matrix) returns (r: Vector)
    requires m.Valid() && v.count == m.rows
    ensures fresh(r.buffer) && r.count == m.cols
    ensures r.Elements() == S.VecMat(v.Elements(), m.Elements(), m.rows, m.cols)
  {
    r := new Vector.Repeating(0.0, m.cols);
    K.Mmul(v.buffer, m.buffer, r.buffer, 1, m.cols, m.rows);
    assert v.buffer[..] == v.Elements();
    S.MatMatOneRow(v.buffer[..], m.buffer[..], m.rows, m.cols);
  }

  /** v * s: every entry scaled by s; the scalar is passed through a one-element vector. */
  method Scaled(v: Vector, s: real) returns (r: Vector)
    ensures fresh(r.buffer) && r.count == v.count
    ensures r.Elements() == S.Scale(v.Elements(), s)
  {
    r := new Vector.Repeating(0.0, v.count);
    var scalar := new Vector([s]);
    K.Vsmul(v.buffer, scalar.buffer[0], r.buffer, v.count);
    assert v.buffer[..v.count] == v.Elements();
  }

  /** lhs + rhs, entry by entry. */
  method Add(lhs: Vector, rhs: Vector) returns (r: Vector)
    requires lhs.count == rhs.count
    ensures fresh(r.buffer) && r.count == lhs.count
    ensures r.Elements() == S.Plus(lhs.Elements(), rhs.Elements())
  {
    r := new Vector.Repeating(0.0, rhs.count);
    K.Vadd(lhs.buffer, rhs.buffer, r.buffer, lhs.count);
    assert lhs.buffer[..lhs.count] == lhs.Elements();
    assert rhs.buffer[..lhs.count] == rhs.Elements();
  }

  /** lhs - rhs, entry by entry (vDSP_vsub takes the subtrahend first). */
  method Subtract(lhs: Vector, rhs: Vector) returns (r: Vector)
    requires lhs.count == rhs.count
    ensures fresh(r.buffer) && r.count == lhs.count
    ensures r.Elements() == S.Minus(lhs.Elements(), rhs.Elements())
  {
    r := new Vector.Repeating(0.0, rhs.count);
    K.Vsub(rhs.buffer, lhs.buffer, r.buffer, lhs.count);
    assert lhs.buffer[..lhs.count] == lhs.Elements();
    assert rhs.buffer[..lhs.count] == rhs.Elements();
  }

  /** The inner product, as a 1 x p by p x 1 matrix product. */
  method InnerProduct(a: Vector, b: Vector) returns (r: real)
    requires a.count == b.count
    ensures r == S.Dot(a.Elements(), b.Elements())
  {
    var result := new real[1];
    K.Mmul(a.buffer, b.buffer, result, 1, 1, a.count);
    S.MatMatInner(a.buffer[..], b.buffer[..]);
    r := result[0];
  }

  /** The outer product, as an m x 1 by 1 x n matrix product; the source demands equal counts. */
  method OuterProduct(a: Vector, b: Vector) returns (r: Matrix)
    requires a.count == b.count
    ensures fresh(r.buffer) && r.Valid() && r.rows == a.count && r.cols == b.count
    ensures r.Elements() == S.Outer(a.Elements(), b.Elements())
  {
    r := new Matrix.Repeating(0.0, a.count, b.count);
    K.Mmul(a.buffer, b.buffer, r.buffer, a.count, b.count, 1);
    S.MatMatOuter(a.buffer[..], b.buffer[..]);
  }

  /** max(): the largest entry. */
  method Max(v: Vector) returns (m: real)
    requires v.count > 0
    ensures exists k :: 0 <= k < v.count && v.buffer[k] == m
    ensures forall k :: 0 <= k < v.count ==> v.buffer[k] <= m
  {
    m := K.Maxv(v.buffer, v.count);
  }

  /** maxValueAndIndex(): the largest entry and the first index holding it. */
  method MaxValueAndIndex(v: Vector) returns (value: real, index: nat)
    requires v.count > 0
    ensures index < v.count && v.buffer[index] == value
    ensures forall k :: 0 <= k < v.count ==> v.buffer[k] <= value
    ensures forall k :: 0 <= k < index ==> v.buffer[k] < value
  {
    value, index := K.Maxvi(v.buffer, v.count);
  }

  /** sum() */
  method Sum(v: Vector) returns (s: real)
    ensures s == S.Sum(v.Elements())
  {
    s := K.Sve(v.buffer, v.count);
    assert v.buffer[..v.count] == v.Elements();
  }

  /** softmax(), with the exponential-based map taken as a parameter. */
  method Softmax(v: Vector, softmax: S.Softmax) returns (r: Vector)
    ensures fresh(r.buffer) && r.count == v.count
    ensures r.Elements() == softmax(v.Elements())
  {
    r := new Vector(softmax(v.buffer[..]));
  }

  /** multiplied(by:plus:) into a fresh vector: v * s + c, with c copied first. */
  method MultipliedPlus(v: Vector, s: real, c: Vector) returns (d: Vector)
    requires v.count == c.count
    ensures fresh(d.buffer) && d.count == v.count
    ensures d.Elements() == S.Axpy(v.Elements(), s, c.Elements())
  {
    d := new Vector.Copy(c);
    K.Vsma(v.buffer, s, c.buffer, d.buffer, v.count);
    assert v.buffer[..v.count] == v.Elements();
    assert c.buffer[..v.count] == c.Elements();
  }

  /**
   * multiplied(by:plus:) through a pointer, here target array t at offset off: the v.count
   * entries from off become v * s plus their old values; every other entry is kept.
   */
  method MultipliedPlusInto(v: Vector, s: real, t: array<real>, off: nat)
    requires v.buffer != t && off + v.count <= t.Length
    modifies t
    ensures t[..] == old(t[..off]) + S.Axpy(v.Elements(), s, old(t[off..off + v.count])) + old(t[off + v.count..])
  {
    K.VsmaInPlace(v.buffer, s, t, off);
  }

  /** formMultiplyInPlace(by:): self[i] *= other[i]; with other == self it squares. */
  method FormMultiplyInPlace(v: Vector, other: Vector)
    requires v.count == other.count
    modifies v.buffer
    ensures v.Elements() == S.Hadamard(old(v.Elements()), old(other.Elements()))
  {
    K.Vmul(v.buffer, other.buffer, v.buffer, v.count);
    assert old(v.buffer[..v.count]) == old(v.Elements());
    assert old(other.buffer[..v.count]) == old(other.Elements());
  }

  /** relu(): vDSP_vthres with threshold 0, which agrees with max(0, v[i]). */
  method Relu(v: Vector) returns (r: Vector)
    ensures fresh(r.buffer) && r.count == v.count
    ensures r.Elements() == S.Relu(v.Elements())
  {
    r := new Vector.Repeating(0.0, v.count);
    K.Vthres(v.buffer, r.buffer, v.count);
    assert v.buffer[..v.count] == v.Elements();
    S.ThresholdZeroIsRelu(v.buffer[..]);
  }

  /** reluPrime(): 1 where the entry is positive, else 0, filled in a loop. */
  method ReluPrime(v: Vector) returns (r: Vector)
    ensures fresh(r.buffer) && r.count == v.count
    ensures r.Elements() == S.ReluPrime(v.Elements())
  {
    r := new Vector.Repeating(0.0, v.count);
    var i := 0;
    while i < v.count
      invariant 0 <= i <= v.count
      invariant forall k :: 0 <= k < i ==> r.buffer[k] == (if v.buffer[k] > 0.0 then 1.0 else 0.0)
    {
      r.buffer[i] := if v.buffer[i] > 0.0 then 1.0 else 0.0;
      i := i + 1;
    }
  }
}
