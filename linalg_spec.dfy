/**
 * The index-level meaning of the vector and matrix arithmetic, as functions over
 * sequences of reals. A matrix with `rows` rows and `cols` columns is a flat
 * row-major sequence: element (r, c) sits at index r * cols + c.
 */
module LinAlgSpec {

  /** softmax needs exp; the model keeps only that it preserves length. */
  type Softmax = f: seq<real> -> seq<real> | forall z :: |f(z)| == |z|
    witness (z: seq<real>) => z

  // ---------------------------------------------------------------------------
  // Index arithmetic for row-major storage

  lemma RowFits(i: nat, rows: nat, cols: nat)
    requires i < rows
    ensures i * cols + cols <= rows * cols
  {
    assert (i + 1) * cols <= rows * cols;
  }

  lemma EntryFits(i: nat, j: nat, rows: nat, cols: nat)
    requires i < rows && j < cols
    ensures i * cols + j < rows * cols
  {
    RowFits(i, rows, cols);
  }

  // ---------------------------------------------------------------------------
  // Sums

  /** s[0] + s[1] + ... + s[|s|-1] */
  function Sum(s: seq<real>): real
  {
    if |s| == 0 then 0.0 else Sum(s[..|s| - 1]) + s[|s| - 1]
  }

  /** a[0]*b[0] + a[1]*b[1] + ... */
  function Dot(a: seq<real>, b: seq<real>): real
    requires |a| == |b|
  {
    if |a| == 0 then 0.0 else Dot(a[..|a| - 1], b[..|a| - 1]) + a[|a| - 1] * b[|a| - 1]
  }

  // ---------------------------------------------------------------------------
  // Element-wise operations

  function Plus(a: seq<real>, b: seq<real>): seq<real>
    requires |a| == |b|
  {
    seq(|a|, i requires 0 <= i < |a| => a[i] + b[i])
  }

  function Minus(a: seq<real>, b: seq<real>): seq<real>
    requires |a| == |b|
  {
    seq(|a|, i requires 0 <= i < |a| => a[i] - b[i])
  }

  function Scale(a: seq<real>, s: real): seq<real>
  {
    seq(|a|, i requires 0 <= i < |a| => a[i] * s)
  }

  function Hadamard(a: seq<real>, b: seq<real>): seq<real>
    requires |a| == |b|
  {
    seq(|a|, i requires 0 <= i < |a| => a[i] * b[i])
  }

  /** a*s + c, element by element (the vDSP "vsma" operation D = A*B + C) */
  function Axpy(a: seq<real>, s: real, c: seq<real>): seq<real>
    requires |a| == |c|
  {
    seq(|a|, i requires 0 <= i < |a| => a[i] * s + c[i])
  }

  /** max(0, z[i]) */
  function Relu(z: seq<real>): seq<real>
  {
    seq(|z|, i requires 0 <= i < |z| => if z[i] > 0.0 then z[i] else 0.0)
  }

  /** a[i] where a[i] >= t, else 0 (vDSP_vthres) */
  function Threshold(a: seq<real>, t: real): seq<real>
  {
    seq(|a|, i requires 0 <= i < |a| => if a[i] >= t then a[i] else 0.0)
  }

  /** the derivative of Relu, taken to be 0 at 0 */
  function ReluPrime(z: seq<real>): seq<real>
  {
    seq(|z|, i requires 0 <= i < |z| => if z[i] > 0.0 then 1.0 else 0.0)
  }

  /** v - lr * delta on the first |delta| entries, the rest unchanged (a bias step) */
  function Descend(v: seq<real>, delta: seq<real>, lr: real): seq<real>
    requires |delta| <= |v|
  {
    seq(|v|, i requires 0 <= i < |v| => if i < |delta| then v[i] - lr * delta[i] else v[i])
  }

  // ---------------------------------------------------------------------------
  // Row-major matrices

  function Row(m: seq<real>, cols: nat, i: nat): seq<real>
    requires i * cols + cols <= |m|
  {
    m[i * cols .. i * cols + cols]
  }

  function Column(m: seq<real>, rows: nat, cols: nat, j: nat): seq<real>
    requires rows * cols <= |m| && j < cols
  {
    seq(rows, i requires 0 <= i < rows => EntryFits(i, j, rows, cols); m[i * cols + j])
  }

  /** concatenation of the rows, in order */
  function Flatten(rows: seq<seq<real>>): seq<real>
  {
    if |rows| == 0 then [] else Flatten(rows[..|rows| - 1]) + rows[|rows| - 1]
  }

  ghost predicate AllOfLength(rows: seq<seq<real>>, n: nat)
  {
    forall i :: 0 <= i < |rows| ==> |rows[i]| == n
  }

  /** M * x: entry i is row i of M dotted with x */
  function MatVec(m: seq<real>, rows: nat, cols: nat, x: seq<real>): seq<real>
    requires rows * cols <= |m| && |x| == cols
  {
    seq(rows, i requires 0 <= i < rows => RowFits(i, rows, cols); Dot(Row(m, cols, i), x))
  }

  /** W x + b, the affine map of one layer */
  function Affine(w: seq<real>, rows: nat, cols: nat, x: seq<real>, b: seq<real>): seq<real>
    requires rows * cols <= |w| && |x| == cols && |b| == rows
  {
    Plus(MatVec(w, rows, cols, x), b)
  }

  /** alpha * A x + beta * y, for A with `rows` rows of `cols` entries */
  function Gemv(alpha: real, a: seq<real>, rows: nat, cols: nat, x: seq<real>, beta: real, y: seq<real>): seq<real>
    requires rows * cols <= |a| && |x| == cols && |y| == rows
  {
    seq(rows, i requires 0 <= i < rows => RowFits(i, rows, cols); alpha * Dot(Row(a, cols, i), x) + beta * y[i])
  }

  /** v * M: entry j is v dotted with column j of M */
  function VecMat(v: seq<real>, m: seq<real>, rows: nat, cols: nat): seq<real>
    requires rows * cols <= |m| && |v| == rows
  {
    seq(cols, j requires 0 <= j < cols => Dot(v, Column(m, rows, cols, j)))
  }

  /** A (m x p) times B (p x n): row i of the product is row i of A times B */
  function MatMat(a: seq<real>, b: seq<real>, m: nat, p: nat, n: nat): seq<real>
    requires m * p <= |a| && p * n <= |b|
  {
    Flatten(ProductRows(a, b, m, p, n))
  }

  function ProductRows(a: seq<real>, b: seq<real>, m: nat, p: nat, n: nat): seq<seq<real>>
    requires m * p <= |a| && p * n <= |b|
  {
    seq(m, i requires 0 <= i < m => RowFits(i, m, p); VecMat(Row(a, p, i), b, p, n))
  }

  /** the outer product a ⊗ b, |a| x |b|: row i is b scaled by a[i] */
  function Outer(a: seq<real>, b: seq<real>): seq<real>
  {
    Flatten(OuterRows(a, b))
  }

  function OuterRows(a: seq<real>, b: seq<real>): seq<seq<real>>
  {
    seq(|a|, i requires 0 <= i < |a| => Scale(b, a[i]))
  }

  /** W^T u accumulated as in the source: the sum of u[j] * (row j of W) over j < k */
  function RowCombination(w: seq<real>, rows: nat, cols: nat, u: seq<real>, k: nat): (r: seq<real>)
    requires rows * cols <= |w| && |u| == rows && k <= rows
    ensures |r| == cols
    decreases k
  {
    if k == 0 then seq(cols, i => 0.0)
    else
      RowFits(k - 1, rows, cols);
      Axpy(Row(w, cols, k - 1), u[k - 1], RowCombination(w, rows, cols, u, k - 1))
  }

  /** row j of W minus lr * delta[j] * prev, the update of one weight row */
  function UpdatedRow(row: seq<real>, d: real, prev: seq<real>, lr: real): seq<real>
    requires |row| == |prev|
  {
    seq(|prev|, k requires 0 <= k < |prev| => row[k] - lr * (d * prev[k]))
  }

  /**
   * The row-wise gradient step: rows j < |delta| of W (row length |prev|) become
   * row_j - lr * delta[j] * prev; every entry from |delta| * |prev| on is kept.
   */
  function OuterUpdate(w: seq<real>, delta: seq<real>, prev: seq<real>, lr: real): seq<real>
    requires |delta| * |prev| <= |w|
  {
    Flatten(UpdatedRows(w, delta, prev, lr)) + w[|delta| * |prev|..]
  }

  function UpdatedRows(w: seq<real>, delta: seq<real>, prev: seq<real>, lr: real): seq<seq<real>>
    requires |delta| * |prev| <= |w|
  {
    seq(|delta|, j requires 0 <= j < |delta| =>
      RowFits(j, |delta|, |prev|); UpdatedRow(Row(w, |prev|, j), delta[j], prev, lr))
  }

  // ---------------------------------------------------------------------------
  // Lemmas

  lemma {:induction false} FlattenLength(rows: seq<seq<real>>, n: nat)
    requires AllOfLength(rows, n)
    ensures |Flatten(rows)| == |rows| * n
  {
    if |rows| > 0 {
      var last := |rows| - 1;
      FlattenLength(rows[..last], n);
      assert |rows[last]| == n;
    }
  }

  lemma FlattenSnoc(rows: seq<seq<real>>, r: seq<real>)
    ensures Flatten(rows + [r]) == Flatten(rows) + r
  {
    assert (rows + [r])[..|rows|] == rows;
  }

  /** Row i, column j of equally long rows sits at i * n + j of their concatenation. */
  lemma {:induction false} FlattenAt(rows: seq<seq<real>>, n: nat, i: nat, j: nat)
    requires AllOfLength(rows, n) && i < |rows| && j < n
    ensures |Flatten(rows)| == |rows| * n
    ensures i * n + j < |rows| * n && Flatten(rows)[i * n + j] == rows[i][j]
  {
    FlattenLength(rows, n);
    EntryFits(i, j, |rows|, n);
    var last := |rows| - 1;
    FlattenLength(rows[..last], n);
    if i < last {
      FlattenAt(rows[..last], n, i, j);
      EntryFits(i, j, last, n);
    }
  }

  lemma {:induction false} FlattenSingletons(rows: seq<seq<real>>)
    requires AllOfLength(rows, 1)
    ensures Flatten(rows) == seq(|rows|, i requires 0 <= i < |rows| => rows[i][0])
  {
    if |rows| > 0 {
      var last := |rows| - 1;
      FlattenSingletons(rows[..last]);
      assert rows[last] == [rows[last][0]];
    }
  }

  lemma {:induction false} DotCommutes(a: seq<real>, b: seq<real>)
    requires |a| == |b|
    ensures Dot(a, b) == Dot(b, a)
  {
    if |a| > 0 {
      DotCommutes(a[..|a| - 1], b[..|a| - 1]);
    }
  }

  /** The inner product is the sum of the element-wise product. */
  lemma {:induction false} DotIsSumOfHadamard(a: seq<real>, b: seq<real>)
    requires |a| == |b|
    ensures Dot(a, b) == Sum(Hadamard(a, b))
  {
    if |a| > 0 {
      var last := |a| - 1;
      DotIsSumOfHadamard(a[..last], b[..last]);
      var h := Hadamard(a, b);
      forall i | 0 <= i < last
        ensures h[..last][i] == Hadamard(a[..last], b[..last])[i]
      {
      }
      assert h[..last] == Hadamard(a[..last], b[..last]);
    }
  }

  /** Every row of the product has one entry per column of B. */
  lemma ProductRowsLength(a: seq<real>, b: seq<real>, m: nat, p: nat, n: nat)
    requires m * p <= |a| && p * n <= |b|
    ensures AllOfLength(ProductRows(a, b, m, p, n), n)
  {
    var rows := ProductRows(a, b, m, p, n);
    forall k | 0 <= k < m
      ensures |rows[k]| == n
    {
      RowFits(k, m, p);
    }
  }

  /** Entry j of row i of the product is row i of A dotted with column j of B. */
  lemma ProductRowsAt(a: seq<real>, b: seq<real>, m: nat, p: nat, n: nat, i: nat, j: nat)
    requires m * p <= |a| && p * n <= |b| && i < m && j < n && i * p + p <= |a|
    ensures |ProductRows(a, b, m, p, n)[i]| == n
    ensures ProductRows(a, b, m, p, n)[i][j] == Dot(Row(a, p, i), Column(b, p, n, j))
  {
    assert ProductRows(a, b, m, p, n)[i] == VecMat(Row(a, p, i), b, p, n);
  }

  /** vDSP_mmul with m = 1 is the vector-times-matrix product. */
  lemma MatMatOneRow(v: seq<real>, m: seq<real>, rows: nat, cols: nat)
    requires rows * cols <= |m| && |v| == rows
    ensures MatMat(v, m, 1, rows, cols) == VecMat(v, m, rows, cols)
  {
    var rs := ProductRows(v, m, 1, rows, cols);
    assert Row(v, rows, 0) == v;
    assert rs == [VecMat(v, m, rows, cols)];
    assert rs[..0] == [];
    calc {
      MatMat(v, m, 1, rows, cols);
      Flatten(rs);
      Flatten(rs[..0]) + rs[0];
    }
  }

  /** vDSP_mmul with n = 1 is the matrix-times-vector product. */
  lemma MatMatOneColumn(m: seq<real>, rows: nat, cols: nat, x: seq<real>)
    requires rows * cols <= |m| && |x| == cols
    ensures MatMat(m, x, rows, cols, 1) == MatVec(m, rows, cols, x)
  {
    var rs := ProductRows(m, x, rows, cols, 1);
    assert Column(x, cols, 1, 0) == x;
    forall k | 0 <= k < rows
      ensures |rs[k]| == 1 && rs[k][0] == MatVec(m, rows, cols, x)[k]
    {
      RowFits(k, rows, cols);
    }
    FlattenSingletons(rs);
  }

  /** vDSP_mmul with m = n = 1 is the inner product. */
  lemma MatMatInner(a: seq<real>, b: seq<real>)
    requires |a| == |b|
    ensures MatMat(a, b, 1, |a|, 1) == [Dot(a, b)]
  {
    MatMatOneRow(a, b, |a|, 1);
    assert Column(b, |a|, 1, 0) == b;
  }

  /** vDSP_mmul with p = 1 is the outer product. */
  lemma MatMatOuter(a: seq<real>, b: seq<real>)
    ensures MatMat(a, b, |a|, 1, |b|) == Outer(a, b)
  {
    var rs := ProductRows(a, b, |a|, 1, |b|);
    var os := OuterRows(a, b);
    forall k | 0 <= k < |a|
      ensures rs[k] == os[k]
    {
      RowFits(k, |a|, 1);
      assert Row(a, 1, k) == [a[k]];
      forall j | 0 <= j < |b|
        ensures rs[k][j] == os[k][j]
      {
        DotSingle(Row(a, 1, k), Column(b, 1, |b|, j));
      }
    }
    assert rs == os;
  }

  lemma DotSingle(a: seq<real>, b: seq<real>)
    requires |a| == 1 && |b| == 1
    ensures Dot(a, b) == a[0] * b[0]
  {
    assert Dot(a[..0], b[..0]) == 0.0;
  }

  /** Entry (i, j) of a ⊗ b is a[i] * b[j]. */
  lemma OuterAt(a: seq<real>, b: seq<real>, i: nat, j: nat)
    requires i < |a| && j < |b|
    ensures |Outer(a, b)| == |a| * |b|
    ensures i * |b| + j < |a| * |b| && Outer(a, b)[i * |b| + j] == a[i] * b[j]
  {
    FlattenAt(OuterRows(a, b), |b|, i, j);
  }

  lemma DotStep(a: seq<real>, b: seq<real>, k: nat)
    requires |a| == |b| && k < |a|
    ensures Dot(a[..k + 1], b[..k + 1]) == Dot(a[..k], b[..k]) + a[k] * b[k]
  {
    assert a[..k + 1][..k] == a[..k];
    assert b[..k + 1][..k] == b[..k];
  }

  /** a[0]*b[0] + ... + a[k-1]*b[k-1], counted up to k instead of sliced. */
  function DotUpTo(a: seq<real>, b: seq<real>, k: nat): real
    requires |a| == |b| && k <= |a|
    decreases k
  {
    if k == 0 then 0.0 else DotUpTo(a, b, k - 1) + a[k - 1] * b[k - 1]
  }

  lemma {:induction false} DotUpToIsDot(a: seq<real>, b: seq<real>, k: nat)
    requires |a| == |b| && k <= |a|
    ensures DotUpTo(a, b, k) == Dot(a[..k], b[..k])
    decreases k
  {
    if k == 0 {
      assert a[..0] == [] && b[..0] == [];
    } else {
      DotUpToIsDot(a, b, k - 1);
      DotStep(a, b, k - 1);
    }
  }

  /** Entry i of the row accumulation after k rows is the dot of u and column i, up to k. */
  lemma {:induction false} RowCombinationAt(w: seq<real>, rows: nat, cols: nat, u: seq<real>, k: nat, i: nat)
    requires rows * cols <= |w| && |u| == rows && k <= rows && i < cols
    ensures RowCombination(w, rows, cols, u, k)[i] == DotUpTo(u, Column(w, rows, cols, i), k)
    decreases k
  {
    if k > 0 {
      RowCombinationAt(w, rows, cols, u, k - 1, i);
      RowCombinationStep(w, rows, cols, u, k, i);
    }
  }

  /** Adding row k - 1: entry i grows by u[k - 1] times entry k - 1 of column i. */
  lemma RowCombinationStep(w: seq<real>, rows: nat, cols: nat, u: seq<real>, k: nat, i: nat)
    requires rows * cols <= |w| && |u| == rows && 0 < k <= rows && i < cols
    ensures RowCombination(w, rows, cols, u, k)[i]
         == RowCombination(w, rows, cols, u, k - 1)[i] + u[k - 1] * Column(w, rows, cols, i)[k - 1]
  {
    RowCombinationUnfold(w, rows, cols, u, k, i);
    RowColumnAgree(w, rows, cols, k - 1, i);
    Rearrange(Row(w, cols, k - 1)[i], Column(w, rows, cols, i)[k - 1], u[k - 1], RowCombination(w, rows, cols, u, k - 1)[i]);
  }

  /** One unfolding of RowCombination, at entry i. */
  lemma RowCombinationUnfold(w: seq<real>, rows: nat, cols: nat, u: seq<real>, k: nat, i: nat)
    requires rows * cols <= |w| && |u| == rows && 0 < k <= rows && i < cols
    ensures (k - 1) * cols + cols <= |w|
    ensures RowCombination(w, rows, cols, u, k)[i] == Row(w, cols, k - 1)[i] * u[k - 1] + RowCombination(w, rows, cols, u, k - 1)[i]
  {
    RowFits(k - 1, rows, cols);
    var prev := RowCombination(w, rows, cols, u, k - 1);
    assert RowCombination(w, rows, cols, u, k) == Axpy(Row(w, cols, k - 1), u[k - 1], prev);
  }

  lemma Rearrange(x: real, y: real, s: real, before: real)
    requires x == y
    ensures x * s + before == before + s * y
  {
  }

  lemma RowColumnAgree(w: seq<real>, rows: nat, cols: nat, r: nat, i: nat)
    requires rows * cols <= |w| && r < rows && i < cols
    ensures r * cols + cols <= |w|
    ensures Row(w, cols, r)[i] == Column(w, rows, cols, i)[r]
  {
    RowFits(r, rows, cols);
  }

  /** Accumulating u[j] * row j over all rows gives u * W, i.e. W^T u. */
  lemma RowCombinationIsVecMat(w: seq<real>, rows: nat, cols: nat, u: seq<real>)
    requires rows * cols <= |w| && |u| == rows
    ensures RowCombination(w, rows, cols, u, rows) == VecMat(u, w, rows, cols)
  {
    forall i | 0 <= i < cols
      ensures RowCombination(w, rows, cols, u, rows)[i] == VecMat(u, w, rows, cols)[i]
    {
      RowCombinationAt(w, rows, cols, u, rows, i);
      DotUpToIsDot(u, Column(w, rows, cols, i), rows);
      assert u[..rows] == u;
      assert Column(w, rows, cols, i)[..rows] == Column(w, rows, cols, i);
    }
  }

  lemma OuterUpdateLength(w: seq<real>, delta: seq<real>, prev: seq<real>, lr: real)
    requires |delta| * |prev| <= |w|
    ensures |OuterUpdate(w, delta, prev, lr)| == |w|
  {
    FlattenLength(UpdatedRows(w, delta, prev, lr), |prev|);
  }

  /** Entry (j, k) of the weights moves by -lr * delta[j] * prev[k]. */
  lemma OuterUpdateAt(w: seq<real>, delta: seq<real>, prev: seq<real>, lr: real, j: nat, k: nat)
    requires |delta| * |prev| <= |w| && j < |delta| && k < |prev|
    ensures |OuterUpdate(w, delta, prev, lr)| == |w|
    ensures j * |prev| + k < |delta| * |prev|
    ensures OuterUpdate(w, delta, prev, lr)[j * |prev| + k] == w[j * |prev| + k] - lr * (delta[j] * prev[k])
  {
    OuterUpdateLength(w, delta, prev, lr);
    EntryFits(j, k, |delta|, |prev|);
    FlattenTailAt(UpdatedRows(w, delta, prev, lr), |prev|, w[|delta| * |prev|..], j, k);
    UpdatedRowsAt(w, delta, prev, lr, j, k);
  }

  lemma UpdatedRowsAt(w: seq<real>, delta: seq<real>, prev: seq<real>, lr: real, j: nat, k: nat)
    requires |delta| * |prev| <= |w| && j < |delta| && k < |prev|
    ensures j * |prev| + k < |w|
    ensures UpdatedRows(w, delta, prev, lr)[j][k] == w[j * |prev| + k] - lr * (delta[j] * prev[k])
  {
    RowFits(j, |delta|, |prev|);
  }

  lemma FlattenTailAt(rows: seq<seq<real>>, n: nat, tail: seq<real>, i: nat, j: nat)
    requires AllOfLength(rows, n) && i < |rows| && j < n
    ensures i * n + j < |Flatten(rows)| && (Flatten(rows) + tail)[i * n + j] == rows[i][j]
  {
    FlattenAt(rows, n, i, j);
  }

  /** Entries from |delta| * |prev| on are not touched. */
  lemma OuterUpdateKeepsTail(w: seq<real>, delta: seq<real>, prev: seq<real>, lr: real, q: nat)
    requires |delta| * |prev| <= q < |w|
    ensures |OuterUpdate(w, delta, prev, lr)| == |w|
    ensures OuterUpdate(w, delta, prev, lr)[q] == w[q]
  {
    OuterUpdateLength(w, delta, prev, lr);
    FlattenLength(UpdatedRows(w, delta, prev, lr), |prev|);
  }

  lemma CancelFactor(a: nat, b: nat, n: nat)
    requires a * n < b * n
    ensures a < b
  {
    if a >= b {
      MulMonotone(b, a, n);
    }
  }

  lemma MulMonotone(a: nat, b: nat, n: nat)
    requires a <= b
    ensures a * n <= b * n
  {
  }

  /** Every index below m * n is (q / n) * n + q % n with q / n < m. */
  lemma Decompose(q: nat, m: nat, n: nat)
    requires q < m * n
    ensures n > 0 && q / n < m && q % n < n && q == (q / n) * n + q % n
  {
    assert n != 0;
    CancelFactor(q / n, m, n);
  }

  /**
   * When W is exactly |delta| x |prev|, the row-wise update is the full outer-product step
   * W - lr * (delta ⊗ prev): every entry is written, each by its own term.
   */
  lemma OuterUpdateIsOuterStep(w: seq<real>, delta: seq<real>, prev: seq<real>, lr: real)
    requires |w| == |delta| * |prev|
    ensures |Outer(delta, prev)| == |w|
    ensures OuterUpdate(w, delta, prev, lr) == Plus(w, Scale(Outer(delta, prev), -lr))
  {
    FlattenLength(OuterRows(delta, prev), |prev|);
    OuterUpdateLength(w, delta, prev, lr);
    var u, o := OuterUpdate(w, delta, prev, lr), Outer(delta, prev);
    var r := Plus(w, Scale(o, -lr));
    forall q | 0 <= q < |w|
      ensures u[q] == r[q]
    {
      OuterStepEntry(w, delta, prev, lr, q);
    }
    assert u == r;
  }

  lemma OuterStepEntry(w: seq<real>, delta: seq<real>, prev: seq<real>, lr: real, q: nat)
    requires |w| == |delta| * |prev| && q < |w|
    ensures |OuterUpdate(w, delta, prev, lr)| == |w| == |Outer(delta, prev)|
    ensures OuterUpdate(w, delta, prev, lr)[q] == w[q] + Outer(delta, prev)[q] * -lr
  {
    Decompose(q, |delta|, |prev|);
    var j, k := q / |prev|, q % |prev|;
    OuterUpdateAt(w, delta, prev, lr, j, k);
    OuterAt(delta, prev, j, k);
    var d := delta[j] * prev[k];
    assert w[q] - lr * d == w[q] + d * -lr;
  }

  /** Entry i of Gemv, read off its definition: a link to sgemv's documented per-entry result. */
  lemma GemvAt(alpha: real, a: seq<real>, rows: nat, cols: nat, x: seq<real>, beta: real, y: seq<real>, i: nat)
    requires rows * cols <= |a| && |x| == cols && |y| == rows && i < rows && i * cols + cols <= |a|
    ensures Gemv(alpha, a, rows, cols, x, beta, y)[i] == alpha * Dot(Row(a, cols, i), x) + beta * y[i]
  {
  }

  /** Thresholding at zero keeps exactly the positive part, as Relu does; a definitional link between the two. */
  lemma ThresholdZeroIsRelu(a: seq<real>)
    ensures Threshold(a, 0.0) == Relu(a)
  {
  }

  /** With alpha = beta = 1 and y of length rows, Gemv is W x + y; a definitional link to Affine. */
  lemma GemvIsAffine(a: seq<real>, rows: nat, cols: nat, x: seq<real>, y: seq<real>)
    requires rows * cols <= |a| && |x| == cols && |y| == rows
    ensures Gemv(1.0, a, rows, cols, x, 1.0, y) == Affine(a, rows, cols, x, y)
  {
  }

  /** With alpha = 1, beta = 0 and y of length rows, Gemv is W x, whatever y held; a definitional link to MatVec. */
  lemma GemvIsMatVec(a: seq<real>, rows: nat, cols: nat, x: seq<real>, y: seq<real>)
    requires rows * cols <= |a| && |x| == cols && |y| == rows
    ensures Gemv(1.0, a, rows, cols, x, 0.0, y) == MatVec(a, rows, cols, x)
  {
  }

  // ---------------------------------------------------------------------------
  // The row loops of the training code

  /** The row-wise update after its first j rows: rows below j updated, the rest as in w. */
  function PartialOuterUpdate(w: seq<real>, delta: seq<real>, prev: seq<real>, lr: real, j: nat): seq<real>
    requires j <= |delta| && |delta| * |prev| <= |w|
  {
    MulMonotone(j, |delta|, |prev|);
    Flatten(UpdatedRows(w, delta, prev, lr)[..j]) + w[j * |prev|..]
  }

  /** Where the next row starts: (j + 1) * n, kept by a loop as j * n plus n. */
  lemma NextRowStart(j: nat, n: nat)
    ensures j * n + n == (j + 1) * n
  {
  }

  lemma PartialOuterUpdateStart(w: seq<real>, delta: seq<real>, prev: seq<real>, lr: real)
    requires |delta| * |prev| <= |w|
    ensures PartialOuterUpdate(w, delta, prev, lr, 0) == w
  {
    assert UpdatedRows(w, delta, prev, lr)[..0] == [];
  }

  lemma PartialOuterUpdateEnd(w: seq<real>, delta: seq<real>, prev: seq<real>, lr: real)
    requires |delta| * |prev| <= |w|
    ensures PartialOuterUpdate(w, delta, prev, lr, |delta|) == OuterUpdate(w, delta, prev, lr)
  {
    var rs := UpdatedRows(w, delta, prev, lr);
    assert rs[..|rs|] == rs;
  }

  /**
   * One pass of a row loop: scaling prev by delta[j] and adding -lr times that into the
   * |prev| entries from j * |prev| on turns the state after j rows into the state after j + 1.
   */
  lemma PartialOuterUpdateStep(w: seq<real>, delta: seq<real>, prev: seq<real>, lr: real, j: nat, base: nat, cur: seq<real>)
    requires j < |delta| && |delta| * |prev| <= |w| && base == j * |prev|
    requires cur == PartialOuterUpdate(w, delta, prev, lr, j)
    ensures base + |prev| <= |cur| == |w|
    ensures cur[..base] + Axpy(Scale(prev, delta[j]), -lr, cur[base..base + |prev|]) + cur[base + |prev|..]
         == PartialOuterUpdate(w, delta, prev, lr, j + 1)
  {
    var n := |prev|;
    var rs := UpdatedRows(w, delta, prev, lr);
    RowFits(j, |delta|, n);
    assert AllOfLength(rs[..j], n);
    FlattenLength(rs[..j], n);
    var head := Flatten(rs[..j]);
    assert |head| == base;
    assert cur == head + w[base..];
    assert cur[..base] == head;
    assert cur[base..base + n] == Row(w, n, j);
    assert cur[base + n..] == w[(j + 1) * n..];
    ScaledRowStep(Row(w, n, j), delta[j], prev, lr);
    assert rs[j] == UpdatedRow(Row(w, n, j), delta[j], prev, lr);
    assert rs[..j + 1] == rs[..j] + [rs[j]];
    FlattenSnoc(rs[..j], rs[j]);
  }

  /** The row update as the loops compute it: (prev * d) * -lr added to the row. */
  lemma ScaledRowStep(row: seq<real>, d: real, prev: seq<real>, lr: real)
    requires |row| == |prev|
    ensures Axpy(Scale(prev, d), -lr, row) == UpdatedRow(row, d, prev, lr)
  {
    var step := Axpy(Scale(prev, d), -lr, row);
    forall k | 0 <= k < |prev|
      ensures step[k] == UpdatedRow(row, d, prev, lr)[k]
    {
      assert step[k] == (prev[k] * d) * -lr + row[k];
    }
  }

  /** Adding s * delta into the first |delta| entries of b, in place, is Descend. */
  lemma AxpyIntoIsDescend(b: seq<real>, delta: seq<real>, lr: real)
    requires |delta| <= |b|
    ensures b[..0] + Axpy(delta, -lr, b[0..|delta|]) + b[|delta|..] == Descend(b, delta, lr)
  {
    var r := b[..0] + Axpy(delta, -lr, b[0..|delta|]) + b[|delta|..];
    var d := Descend(b, delta, lr);
    forall i | 0 <= i < |b|
      ensures r[i] == d[i]
    {
      if i < |delta| {
        assert r[i] == delta[i] * -lr + b[i];
      } else {
        assert r[i] == b[i];
      }
    }
    assert r == d;
  }

  /** Adding 0 times a into a target leaves every entry of the target as it was. */
  lemma AxpyIntoZero(t: seq<real>, a: seq<real>, off: nat)
    requires off + |a| <= |t|
    ensures t[..off] + Axpy(a, 0.0, t[off..off + |a|]) + t[off + |a|..] == t
  {
    var c := t[off..off + |a|];
    assert Axpy(a, 0.0, c) == c;
    assert t[..off] + c + t[off + |a|..] == t;
  }

  /** With delta as long as b, Descend is b - lr * delta. */
  lemma DescendIsStep(b: seq<real>, delta: seq<real>, lr: real)
    requires |b| == |delta|
    ensures Descend(b, delta, lr) == Plus(b, Scale(delta, -lr))
  {
    var d, r := Descend(b, delta, lr), Plus(b, Scale(delta, -lr));
    forall i | 0 <= i < |b|
      ensures d[i] == r[i]
    {
      assert r[i] == b[i] + delta[i] * -lr;
    }
  }

  /** Plus is symmetric, entry by entry from its definition; it links vadd(b, y, y) to W x + b. */
  lemma PlusCommutes(a: seq<real>, b: seq<real>)
    requires |a| == |b|
    ensures Plus(a, b) == Plus(b, a)
  {
  }
}
