/**
 * The owning buffers of the vector/matrix layer. A Vector owns `count` reals; a Matrix owns
 * `rows * cols` reals stored row-major, element (r, c) at index r * cols + c. The buffer
 * reference never changes after construction, but its contents do: through the subscript
 * setters and through the in-place kernels.
 */
module Buffers {
  import S = LinAlgSpec
  import opened Wrappers

  class Vector {
    const buffer: array<real>
    const count: nat := buffer.Length

    ghost function Elements(): seq<real>
      reads buffer
    {
      buffer[..]
    }

    /** init(_ elements:) and the array literal: the buffer holds the elements in order. */
    constructor (elements: seq<real>)
      ensures Elements() == elements && fresh(buffer)
    {
      buffer := new real[|elements|](i requires 0 <= i < |elements| => elements[i]);
    }

    /** init(_ other:): a fresh buffer with a copy of other's elements. */
    constructor Copy(other: Vector)
      ensures Elements() == other.Elements() && fresh(buffer)
    {
      var b := new real[other.count];
      forall i | 0 <= i < other.count {
        b[i] := other.buffer[i];
      }
      buffer := b;
    }

    /** init(repeating:count:) */
    constructor Repeating(value: real, count: nat)
      ensures Elements() == seq(count, i => value) && fresh(buffer)
    {
      buffer := new real[count](i => value);
    }

    /** The subscript getter. */
    function At(index: nat): real
      requires index < count
      reads buffer
    {
      buffer[index]
    }

    /** The subscript setter: entry index becomes value, nothing else changes. */
    method Set(index: nat, value: real)
      requires index < count
      modifies buffer
      ensures Elements() == old(Elements())[index := value]
    {
      buffer[index] := value;
    }

    /** ==: equal counts and equal elements, compared in order. */
    method Equals(other: Vector) returns (r: bool)
      ensures r <==> Elements() == other.Elements()
    {
      if count != other.count {
        assert |Elements()| != |other.Elements()|;
        return false;
      }
      var i := 0;
      while i < count
        invariant 0 <= i <= count
        invariant buffer[..i] == other.buffer[..i]
      {
        if buffer[i] != other.buffer[i] {
          assert Elements()[i] != other.Elements()[i];
          return false;
        }
        assert buffer[..i + 1] == buffer[..i] + [buffer[i]];
        assert other.buffer[..i + 1] == other.buffer[..i] + [other.buffer[i]];
        i := i + 1;
      }
      assert buffer[..] == buffer[..count];
      assert other.buffer[..] == other.buffer[..count];
      return true;
    }
  }

  /** The check the nested initialiser performs: a first row exists and the total fits. */
  ghost predicate NestedInitGuard(elements: seq<seq<real>>)
  {
    |elements| > 0 && |S.Flatten(elements)| == |elements| * |elements[0]|
  }

  /** What the nested initialiser's message asks for: every row as long as the first. */
  ghost predicate Rectangular(elements: seq<seq<real>>)
  {
    |elements| > 0 && S.AllOfLength(elements, |elements[0]|)
  }

  /**
   * Three rows of lengths 2, 1 and 3 pass the total-length check, yet the matrix built from
   * them is 3 x 2 and its entry (2, 0) is 5, not the 4 the third row starts with.
   */
  lemma RaggedRowsPassGuard()
    ensures var elements: seq<seq<real>> := [[1.0, 2.0], [3.0], [4.0, 5.0, 6.0]];
      && NestedInitGuard(elements) && !Rectangular(elements)
      && S.Flatten(elements)[2 * |elements[0]| + 0] != elements[2][0]
  {
    var elements: seq<seq<real>> := [[1.0, 2.0], [3.0], [4.0, 5.0, 6.0]];
    assert S.Flatten(elements[..2]) == [1.0, 2.0, 3.0] by {
      assert S.Flatten(elements[..1]) == [1.0, 2.0] by {
        assert |elements[..1][..0]| == 0;
      }
      assert elements[..2][..1] == elements[..1];
    }
    assert elements[..3][..2] == elements[..2];
    assert elements[..3] == elements;
    assert S.Flatten(elements) == [1.0, 2.0, 3.0, 4.0, 5.0, 6.0];
    assert |elements[1]| != |elements[0]|;
  }

  /**
   * With every row as long as the first, the check passes and entry (i, j) of the matrix
   * is elements[i][j], as the message intends.
   */
  lemma RectangularRowsAt(elements: seq<seq<real>>, i: nat, j: nat)
    requires Rectangular(elements) && i < |elements| && j < |elements[0]|
    ensures NestedInitGuard(elements)
    ensures i * |elements[0]| + j < |S.Flatten(elements)|
    ensures S.Flatten(elements)[i * |elements[0]| + j] == elements[i][j]
  {
    S.FlattenLength(elements, |elements[0]|);
    S.FlattenAt(elements, |elements[0]|, i, j);
  }

  class Matrix {
    const rows: nat
    const cols: nat
    const buffer: array<real>
    const count: nat := rows * cols

    ghost predicate Valid()
    {
      buffer.Length == rows * cols
    }

    ghost function Elements(): seq<real>
      reads buffer
    {
      buffer[..]
    }

    /** init(elements:rows:cols:): the elements, in order, as a rows x cols matrix. */
    constructor (elements: seq<real>, rows: nat, cols: nat)
      requires rows * cols == |elements|
      ensures Valid() && this.rows == rows && this.cols == cols
      ensures Elements() == elements && fresh(buffer)
    {
      this.rows, this.cols := rows, cols;
      buffer := new real[|elements|](i requires 0 <= i < |elements| => elements[i]);
    }

    /** init(repeating:rows:cols:) */
    constructor Repeating(value: real, rows: nat, cols: nat)
      ensures Valid() && this.rows == rows && this.cols == cols
      ensures Elements() == seq(rows * cols, i => value) && fresh(buffer)
    {
      this.rows, this.cols := rows, cols;
      buffer := new real[rows * cols](i => value);
    }

    /**
     * init(_ elements: [[T]]) and the array literal: as many rows as elements, as many
     * columns as the first row, the rows concatenated in order. Only the total length is
     * checked, so rows of unequal length with the right total are accepted too.
     */
    constructor FromRows(elements: seq<seq<real>>)
      requires NestedInitGuard(elements)
      ensures Valid() && rows == |elements| && cols == |elements[0]|
      ensures Elements() == S.Flatten(elements) && fresh(buffer)
    {
      var flat := S.Flatten(elements);
      rows, cols := |elements|, |elements[0]|;
      buffer := new real[|flat|](i requires 0 <= i < |flat| => flat[i]);
      new;
      assert buffer[..] == flat;
    }

    /** The subscript getter, on the flat row-major index. */
    function At(index: nat): real
      requires index < buffer.Length
      reads buffer
    {
      buffer[index]
    }

    /** The subscript setter: entry index becomes value, nothing else changes. */
    method Set(index: nat, value: real)
      requires index < buffer.Length
      modifies buffer
      ensures Elements() == old(Elements())[index := value]
    {
      buffer[index] := value;
    }

    /** ==: equal shapes and equal elements. */
    method Equals(other: Matrix) returns (r: bool)
      requires Valid() && other.Valid()
      ensures r <==> rows == other.rows && cols == other.cols && Elements() == other.Elements()
    {
      if rows != other.rows || cols != other.cols {
        return false;
      }
      var i := 0;
      while i < buffer.Length
        invariant 0 <= i <= buffer.Length
        invariant buffer[..i] == other.buffer[..i]
      {
        if buffer[i] != other.buffer[i] {
          assert Elements()[i] != other.Elements()[i];
          return false;
        }
        assert buffer[..i + 1] == buffer[..i] + [buffer[i]];
        assert other.buffer[..i + 1] == other.buffer[..i] + [other.buffer[i]];
        i := i + 1;
      }
      assert buffer[..] == buffer[..buffer.Length];
      assert other.buffer[..] == other.buffer[..buffer.Length];
      return true;
    }
  }

  /** Vector.Iterator: walks the buffer from index 0. */
  class VectorIterator {
    const vector: Vector
    var index: nat

    constructor (vector: Vector)
      ensures this.vector == vector && index == 0
    {
      this.vector := vector;
      index := 0;
    }

    /** The next element and one step on, or None (and no step) once past the end. */
    method Next() returns (r: Option<real>)
      modifies this
      ensures old(index) < vector.count ==> r == Some(vector.buffer[old(index)]) && index == old(index) + 1
      ensures old(index) >= vector.count ==> r == None && index == old(index)
    {
      if index >= vector.count {
        return None;
      }
      r := Some(vector.buffer[index]);
      index := index + 1;
    }
  }

  /** Iterating a vector to the end yields exactly its elements, in order. */
  method Collect(v: Vector) returns (s: seq<real>)
    ensures s == v.Elements()
  {
    var it := new VectorIterator(v);
    s := [];
    while true
      invariant it.vector == v && it.index <= v.count
      invariant s == v.buffer[..it.index]
      decreases v.count - it.index
    {
      var next := it.Next();
      if next.None? {
        break;
      }
      assert v.buffer[..it.index] == v.buffer[..it.index - 1] + [next.value];
      s := s + [next.value];
    }
    assert v.buffer[..] == v.buffer[..v.count];
  }
}
