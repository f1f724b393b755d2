/**
 * The exact small-integer cases the unit tests of the vector/matrix layer check, stated on
 * the specification functions the kernels are proved against. The 3 x 2 matrix of the
 * tests, rows [1, 4], [2, 5], [3, 6], is the row-major sequence [1, 4, 2, 5, 3, 6].
 */
module WorkedExamples {
  import S = LinAlgSpec
  import MachineLearningModel
  import Buffers
  import VectorOps

  lemma DotOfTwo(a: seq<real>, b: seq<real>)
    requires |a| == 2 && |b| == 2
    ensures S.Dot(a, b) == a[0] * b[0] + a[1] * b[1]
  {
    S.DotSingle(a[..1], b[..1]);
    S.DotStep(a, b, 1);
    assert a[..2] == a && b[..2] == b;
  }

  lemma DotOfThree(a: seq<real>, b: seq<real>)
    requires |a| == 3 && |b| == 3
    ensures S.Dot(a, b) == a[0] * b[0] + a[1] * b[1] + a[2] * b[2]
  {
    DotOfTwo(a[..2], b[..2]);
    S.DotStep(a, b, 2);
    assert a[..3] == a && b[..3] == b;
  }

  lemma FlattenOfTwo(rows: seq<seq<real>>)
    requires |rows| == 2
    ensures S.Flatten(rows) == rows[0] + rows[1]
  {
    assert S.Flatten(rows[..1][..0]) == [];
    assert S.Flatten(rows[..1]) == rows[0];
    assert rows[..2] == rows;
  }

  /** [1, 2, 3] . [5, 6, 7] == 5 + 12 + 21 */
  lemma InnerProductExample()
    ensures S.Dot([1.0, 2.0, 3.0], [5.0, 6.0, 7.0]) == 38.0
  {
    DotOfThree([1.0, 2.0, 3.0], [5.0, 6.0, 7.0]);
  }

  /** The 3 x 2 matrix times [1, 2] is [9, 12, 15]. */
  lemma MatrixTimesVectorExample()
    ensures S.MatVec([1.0, 4.0, 2.0, 5.0, 3.0, 6.0], 3, 2, [1.0, 2.0]) == [9.0, 12.0, 15.0]
  {
    var m := [1.0, 4.0, 2.0, 5.0, 3.0, 6.0];
    assert S.Row(m, 2, 0) == [1.0, 4.0];
    assert S.Row(m, 2, 1) == [2.0, 5.0];
    assert S.Row(m, 2, 2) == [3.0, 6.0];
    DotOfTwo([1.0, 4.0], [1.0, 2.0]);
    DotOfTwo([2.0, 5.0], [1.0, 2.0]);
    DotOfTwo([3.0, 6.0], [1.0, 2.0]);
  }

  /** [1, 2, 3] times the 3 x 2 matrix is [14, 32]. */
  lemma VectorTimesMatrixExample()
    ensures S.VecMat([1.0, 2.0, 3.0], [1.0, 4.0, 2.0, 5.0, 3.0, 6.0], 3, 2) == [14.0, 32.0]
  {
    var m := [1.0, 4.0, 2.0, 5.0, 3.0, 6.0];
    assert S.Column(m, 3, 2, 0) == [1.0, 2.0, 3.0];
    assert S.Column(m, 3, 2, 1) == [4.0, 5.0, 6.0];
    DotOfThree([1.0, 2.0, 3.0], [1.0, 2.0, 3.0]);
    DotOfThree([1.0, 2.0, 3.0], [4.0, 5.0, 6.0]);
  }

  /** [[1, 2, 3], [4, 5, 6]] times the 3 x 2 matrix is [[14, 32], [32, 77]]. */
  lemma MatrixTimesMatrixExample()
    ensures S.MatMat([1.0, 2.0, 3.0, 4.0, 5.0, 6.0], [1.0, 4.0, 2.0, 5.0, 3.0, 6.0], 2, 3, 2) == [14.0, 32.0, 32.0, 77.0]
  {
    var a, b := [1.0, 2.0, 3.0, 4.0, 5.0, 6.0], [1.0, 4.0, 2.0, 5.0, 3.0, 6.0];
    assert S.Column(b, 3, 2, 0) == [1.0, 2.0, 3.0];
    assert S.Column(b, 3, 2, 1) == [4.0, 5.0, 6.0];
    assert S.Row(a, 3, 0) == [1.0, 2.0, 3.0];
    assert S.Row(a, 3, 1) == [4.0, 5.0, 6.0];
    DotOfThree([1.0, 2.0, 3.0], [1.0, 2.0, 3.0]);
    DotOfThree([1.0, 2.0, 3.0], [4.0, 5.0, 6.0]);
    DotOfThree([4.0, 5.0, 6.0], [1.0, 2.0, 3.0]);
    DotOfThree([4.0, 5.0, 6.0], [4.0, 5.0, 6.0]);
    assert S.VecMat([1.0, 2.0, 3.0], b, 3, 2) == [14.0, 32.0];
    assert S.VecMat([4.0, 5.0, 6.0], b, 3, 2) == [32.0, 77.0];
    var rows := S.ProductRows(a, b, 2, 3, 2);
    assert rows == [[14.0, 32.0], [32.0, 77.0]];
    FlattenOfTwo(rows);
  }

  /** [1, 2] outer [3, 4] is [[1 * 3, 1 * 4], [2 * 3, 2 * 4]]. */
  lemma OuterProductExample()
    ensures S.Outer([1.0, 2.0], [3.0, 4.0]) == [3.0, 4.0, 6.0, 8.0]
  {
    var rows := S.OuterRows([1.0, 2.0], [3.0, 4.0]);
    assert S.Scale([3.0, 4.0], 1.0) == [3.0, 4.0];
    assert S.Scale([3.0, 4.0], 2.0) == [6.0, 8.0];
    assert rows == [[3.0, 4.0], [6.0, 8.0]];
    FlattenOfTwo(rows);
  }

  /** The rows [1, 2], [3, 4] flatten to the flat elements [1, 2, 3, 4]. */
  lemma FlattenExample()
    ensures S.Flatten([[1.0, 2.0], [3.0, 4.0]]) == [1.0, 2.0, 3.0, 4.0]
  {
    var rows: seq<seq<real>> := [[1.0, 2.0], [3.0, 4.0]];
    FlattenOfTwo(rows);
  }

  /** The literal [[1, 2], [3, 4]] and init(elements: [1, 2, 3, 4], rows: 2, cols: 2) are ==. */
  method NestedEqualsFlatExample() returns (r: bool)
    ensures r
  {
    FlattenExample();
    var nested := new Buffers.Matrix.FromRows([[1.0, 2.0], [3.0, 4.0]]);
    var flat := new Buffers.Matrix([1.0, 2.0, 3.0, 4.0], 2, 2);
    r := nested.Equals(flat);
  }

  /** The largest entry of [1, 7, 3] is at position 1. */
  lemma FirstMaxExample()
    ensures MachineLearningModel.FirstMax([1.0, 7.0, 3.0]) == 1
  {
    var s := [1.0, 7.0, 3.0];
    assert s[..2][..1] == [1.0];
    assert s[..2] == [1.0, 7.0];
  }

  /** max() of the vector [1, 7, 3] is 7. */
  method MaxExample() returns (m: real)
    ensures m == 7.0
  {
    var v := new Buffers.Vector([1.0, 7.0, 3.0]);
    m := VectorOps.Max(v);
    assert v.buffer[0] == 1.0 && v.buffer[1] == 7.0 && v.buffer[2] == 3.0;
  }
}
