/**
 * The Accelerate routines the vector and matrix code calls (vDSP_mmul, cblas_sgemv,
 * vDSP_vadd, vDSP_vsub, vDSP_vsmul, vDSP_vsma, vDSP_vmul, vDSP_vthres, vDSP_maxv,
 * vDSP_maxvi, vDSP_sve), each at unit stride, written as loops over arrays and proved
 * against their index-level meaning in LinAlgSpec. A pointer into the middle of a
 * buffer is an (array, offset) pair.
 */
module Kernels {
  import S = LinAlgSpec

  /** One entry of a matrix product: row i of A (m x p) dotted with column j of B (p x n). */
  method RowColDot(a: array<real>, b: array<real>, m: nat, p: nat, n: nat, i: nat, j: nat) returns (s: real)
    requires m * p <= a.Length && p * n <= b.Length && i < m && j < n
    ensures i * p + p <= a.Length
    ensures s == S.Dot(S.Row(a[..], p, i), S.Column(b[..], p, n, j))
  {
    S.RowFits(i, m, p);
    ghost var row, col := S.Row(a[..], p, i), S.Column(b[..], p, n, j);
    s := 0.0;
    var k := 0;
    while k < p
      invariant 0 <= k <= p
      invariant s == S.Dot(row[..k], col[..k])
    {
      S.EntryFits(k, j, p, n);
      assert row[..k + 1][..k] == row[..k];
      assert col[..k + 1][..k] == col[..k];
      s := s + a[i * p + k] * b[k * n + j];
      k := k + 1;
    }
    assert row[..p] == row && col[..p] == col;
  }

  /** vDSP_mmul: C (m x n) := A (m x p) * B (p x n). */
  method Mmul(a: array<real>, b: array<real>, c: array<real>, m: nat, n: nat, p: nat)
    requires m * p <= a.Length && p * n <= b.Length && c.Length == m * n
    requires c != a && c != b
    modifies c
    ensures c[..] == S.MatMat(a[..], b[..], m, p, n)
  {
    ghost var product := S.MatMat(a[..], b[..], m, p, n);
    S.FlattenLength(S.ProductRows(a[..], b[..], m, p, n), n);
    var i: nat, base: nat := 0, 0;
    while i < m
      invariant i <= m && base == i * n && base <= c.Length
      invariant forall q :: 0 <= q < base ==> c[q] == product[q]
    {
      S.RowFits(i, m, n);
      MmulRow(a, b, c, m, n, p, i, base, product);
      S.NextRowStart(i, n);
      i, base := i + 1, base + n;
    }
    assert c[..] == product;
  }

  /** Fills row i of C, given rows 0..i-1 are done. */
  method MmulRow(a: array<real>, b: array<real>, c: array<real>, m: nat, n: nat, p: nat, i: nat, base: nat,
                 ghost product: seq<real>)
    requires m * p <= a.Length && p * n <= b.Length && c.Length == m * n && i < m
    requires base == i * n && base + n <= c.Length
    requires c != a && c != b
    requires product == S.MatMat(a[..], b[..], m, p, n) && |product| == c.Length
    requires forall q :: 0 <= q < base ==> c[q] == product[q]
    modifies c
    ensures forall q :: 0 <= q < base + n ==> c[q] == product[q]
  {
    ghost var A, B := a[..], b[..];
    var j := 0;
    while j < n
      invariant 0 <= j <= n
      invariant forall q :: 0 <= q < base + j ==> c[q] == product[q]
    {
      var s := RowColDot(a, b, m, p, n, i, j);
      EntryValue(A, B, m, p, n, i, j, product, s);
      c[base + j] := s;
      j := j + 1;
    }
  }

  /** Entry (i, j) of A * B is row i of A dotted with column j of B. */
  lemma EntryValue(A: seq<real>, B: seq<real>, m: nat, p: nat, n: nat, i: nat, j: nat, product: seq<real>, s: real)
    requires m * p <= |A| && p * n <= |B| && i < m && j < n && i * p + p <= |A|
    requires product == S.MatMat(A, B, m, p, n)
    requires s == S.Dot(S.Row(A, p, i), S.Column(B, p, n, j))
    ensures i * n + j < |product| && product[i * n + j] == s
  {
    S.ProductRowsLength(A, B, m, p, n);
    S.FlattenAt(S.ProductRows(A, B, m, p, n), n, i, j);
    S.ProductRowsAt(A, B, m, p, n, i, j);
  }

  /** cblas_sgemv, row-major, no transpose, lda = n, unit strides: y := alpha * A x + beta * y. */
  method Gemv(m: nat, n: nat, alpha: real, a: array<real>, x: array<real>, beta: real, y: array<real>)
    requires m * n <= a.Length && x.Length == n && y.Length == m
    requires y != a && y != x
    modifies y
    ensures y[..] == S.Gemv(alpha, a[..], m, n, x[..], beta, old(y[..]))
  {
    ghost var y0, A, X := y[..], a[..], x[..];
    ghost var r := S.Gemv(alpha, A, m, n, X, beta, y0);
    var i := 0;
    while i < m
      invariant 0 <= i <= m
      invariant forall k :: 0 <= k < i ==> y[k] == r[k]
      invariant forall k :: i <= k < y.Length ==> y[k] == y0[k]
      invariant a[..] == A && x[..] == X
    {
      var d := RowDot(a, m, n, i, x);
      S.GemvAt(alpha, A, m, n, X, beta, y0, i);
      var yi := alpha * d + beta * y[i];
      assert yi == r[i];
      y[i] := yi;
      i := i + 1;
    }
    assert y[..] == r;
  }

  method RowDot(a: array<real>, m: nat, n: nat, i: nat, x: array<real>) returns (s: real)
    requires m * n <= a.Length && x.Length == n && i < m
    ensures i * n + n <= a.Length
    ensures s == S.Dot(S.Row(a[..], n, i), x[..])
  {
    S.RowFits(i, m, n);
    ghost var row := S.Row(a[..], n, i);
    s := 0.0;
    var k := 0;
    while k < n
      invariant 0 <= k <= n
      invariant s == S.Dot(row[..k], x[..k])
    {
      assert row[..k + 1][..k] == row[..k];
      assert x[..k + 1][..k] == x[..k];
      s := s + a[i * n + k] * x[k];
      k := k + 1;
    }
    assert row[..n] == row && x[..n] == x[..];
  }

  /** vDSP_vadd: C := A + B on n elements; C may be A or B. */
  method Vadd(a: array<real>, b: array<real>, c: array<real>, n: nat)
    requires n <= a.Length && n <= b.Length && c.Length == n
    modifies c
    ensures c[..] == S.Plus(old(a[..n]), old(b[..n]))
  {
    ghost var a0, b0 := a[..n], b[..n];
    var i := 0;
    while i < n
      invariant 0 <= i <= n
      invariant forall k :: 0 <= k < i ==> c[k] == a0[k] + b0[k]
      invariant forall k :: i <= k < n ==> a[k] == a0[k] && b[k] == b0[k]
    {
      c[i] := a[i] + b[i];
      i := i + 1;
    }
    assert c[..] == S.Plus(a0, b0);
  }

  /** vDSP_vsub(B, A, C): C := A - B on n elements (the subtrahend comes first). */
  method Vsub(b: array<real>, a: array<real>, c: array<real>, n: nat)
    requires n <= a.Length && n <= b.Length && c.Length == n
    modifies c
    ensures c[..] == S.Minus(old(a[..n]), old(b[..n]))
  {
    ghost var a0, b0 := a[..n], b[..n];
    var i := 0;
    while i < n
      invariant 0 <= i <= n
      invariant forall k :: 0 <= k < i ==> c[k] == a0[k] - b0[k]
      invariant forall k :: i <= k < n ==> a[k] == a0[k] && b[k] == b0[k]
    {
      c[i] := a[i] - b[i];
      i := i + 1;
    }
    assert c[..] == S.Minus(a0, b0);
  }

  /** vDSP_vsmul: C := A * s on n elements. */
  method Vsmul(a: array<real>, s: real, c: array<real>, n: nat)
    requires n <= a.Length && c.Length == n
    modifies c
    ensures c[..] == S.Scale(old(a[..n]), s)
  {
    ghost var a0 := a[..n];
    var i := 0;
    while i < n
      invariant 0 <= i <= n
      invariant forall k :: 0 <= k < i ==> c[k] == a0[k] * s
      invariant forall k :: i <= k < n ==> a[k] == a0[k]
    {
      c[i] := a[i] * s;
      i := i + 1;
    }
    forall k | 0 <= k < n
      ensures c[k] == S.Scale(a0, s)[k]
    {
      assert c[k] == a0[k] * s;
    }
    assert c[..] == S.Scale(a0, s);
  }

  /** vDSP_vsma: D := A * s + C on n elements, into a separate output D. */
  method Vsma(a: array<real>, s: real, c: array<real>, d: array<real>, n: nat)
    requires n <= a.Length && n <= c.Length && d.Length == n
    modifies d
    ensures d[..] == S.Axpy(old(a[..n]), s, old(c[..n]))
  {
    ghost var a0, c0 := a[..n], c[..n];
    var i := 0;
    while i < n
      invariant 0 <= i <= n
      invariant forall k :: 0 <= k < i ==> d[k] == a0[k] * s + c0[k]
      invariant forall k :: i <= k < n ==> a[k] == a0[k] && c[k] == c0[k]
    {
      d[i] := a[i] * s + c[i];
      i := i + 1;
    }
    forall k | 0 <= k < n
      ensures d[k] == S.Axpy(a0, s, c0)[k]
    {
      assert d[k] == a0[k] * s + c0[k];
    }
    assert d[..] == S.Axpy(a0, s, c0);
  }

  /**
   * vDSP_vsma with C and D the same pointer t + off: the |a| entries from off on become
   * a[k] * s + t[off + k]; every other entry of t keeps its value.
   */
  method VsmaInPlace(a: array<real>, s: real, t: array<real>, off: nat)
    requires a != t && off + a.Length <= t.Length
    modifies t
    ensures t[..] == old(t[..off]) + S.Axpy(a[..], s, old(t[off..off + a.Length])) + old(t[off + a.Length..])
  {
    ghost var t0 := t[..];
    var k := 0;
    while k < a.Length
      invariant 0 <= k <= a.Length
      invariant forall q :: 0 <= q < t.Length ==>
        t[q] == if off <= q < off + k then a[q - off] * s + t0[q] else t0[q]
    {
      t[off + k] := a[k] * s + t[off + k];
      k := k + 1;
    }
    ghost var r := t0[..off] + S.Axpy(a[..], s, t0[off..off + a.Length]) + t0[off + a.Length..];
    assert |r| == t.Length;
    forall q | 0 <= q < t.Length
      ensures t[q] == r[q]
    {
      if q < off {
      } else if q < off + a.Length {
        assert r[q] == S.Axpy(a[..], s, t0[off..off + a.Length])[q - off];
      } else {
        assert r[q] == t0[off + a.Length..][q - off - a.Length];
      }
    }
    assert t[..] == r;
  }

  /** vDSP_vmul: C := A ⊙ B on n elements; C may be A or B. */
  method Vmul(a: array<real>, b: array<real>, c: array<real>, n: nat)
    requires n <= a.Length && n <= b.Length && c.Length == n
    modifies c
    ensures c[..] == S.Hadamard(old(a[..n]), old(b[..n]))
  {
    ghost var a0, b0 := a[..n], b[..n];
    var i := 0;
    while i < n
      invariant 0 <= i <= n
      invariant forall k :: 0 <= k < i ==> c[k] == a0[k] * b0[k]
      invariant forall k :: i <= k < n ==> a[k] == a0[k] && b[k] == b0[k]
    {
      c[i] := a[i] * b[i];
      i := i + 1;
    }
    forall k | 0 <= k < n
      ensures c[k] == S.Hadamard(a0, b0)[k]
    {
      assert c[k] == a0[k] * b0[k];
    }
    assert c[..] == S.Hadamard(a0, b0);
  }

  /** vDSP_vthres with threshold 0: C[i] := A[i] if A[i] >= 0, else 0. */
  method Vthres(a: array<real>, c: array<real>, n: nat)
    requires n <= a.Length && c.Length == n
    modifies c
    ensures c[..] == S.Threshold(old(a[..n]), 0.0)
  {
    ghost var a0 := a[..n];
    var i := 0;
    while i < n
      invariant 0 <= i <= n
      invariant forall k :: 0 <= k < i ==> c[k] == if a0[k] >= 0.0 then a0[k] else 0.0
      invariant forall k :: i <= k < n ==> a[k] == a0[k]
    {
      c[i] := if a[i] >= 0.0 then a[i] else 0.0;
      i := i + 1;
    }
    assert c[..] == S.Threshold(a0, 0.0);
  }

  /** vDSP_maxv on a non-empty prefix: the largest of a[0..n). */
  method Maxv(a: array<real>, n: nat) returns (m: real)
    requires 0 < n <= a.Length
    ensures exists k :: 0 <= k < n && a[k] == m
    ensures forall k :: 0 <= k < n ==> a[k] <= m
  {
    var i;
    m, i := Maxvi(a, n);
  }

  /** vDSP_maxvi on a non-empty prefix: the largest of a[0..n) and the first index holding it. */
  method Maxvi(a: array<real>, n: nat) returns (m: real, index: nat)
    requires 0 < n <= a.Length
    ensures index < n && a[index] == m
    ensures forall k :: 0 <= k < n ==> a[k] <= m
    ensures forall k :: 0 <= k < index ==> a[k] < m
  {
    m, index := a[0], 0;
    var i := 1;
    while i < n
      invariant 1 <= i <= n
      invariant index < i && a[index] == m
      invariant forall k :: 0 <= k < i ==> a[k] <= m
      invariant forall k :: 0 <= k < index ==> a[k] < m
    {
      if a[i] > m {
        m, index := a[i], i;
      }
      i := i + 1;
    }
  }

  /** vDSP_sve: the sum of a[0..n). */
  method Sve(a: array<real>, n: nat) returns (s: real)
    requires n <= a.Length
    ensures s == S.Sum(a[..n])
  {
    s := 0.0;
    var i := 0;
    while i < n
      invariant 0 <= i <= n
      invariant s == S.Sum(a[..i])
    {
      assert a[..i + 1][..i] == a[..i];
      s := s + a[i];
      i := i + 1;
    }
  }
}
