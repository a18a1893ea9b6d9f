/** A single two-dimensional float buffer (NEA/Tensor/Matrix.cs). */
module Matrices {
  import opened Wrappers

  /** The contents of a matrix, row by row. */
  type Grid = seq<seq<real>>

  /** The cells of a two-dimensional buffer, as a grid. */
  function Cells(a: array2<real>): (g: Grid)
    reads a
    ensures |g| == a.Length0
    ensures forall i | 0 <= i < |g| :: |g[i]| == a.Length1
    ensures forall i, j | 0 <= i < a.Length0 && 0 <= j < a.Length1 :: g[i][j] == a[i, j]
  {
    seq(a.Length0, i requires 0 <= i < a.Length0 reads a =>
      seq(a.Length1, j requires 0 <= j < a.Length1 reads a => a[i, j]))
  }

  class Matrix {
    /** The cells; a public, mutable field in the library. */
    var data: array2<real>
    /** The private shape recorded at construction, [rows, columns]. */
    var shape: seq<int>

    /** The recorded shape agrees with the dimensions of the buffer. */
    ghost predicate Valid()
      reads this
    {
      shape == [data.Length0, data.Length1]
    }

    /** `new Matrix(rows, columns)`: a fresh rows x columns buffer of zeros. */
    constructor (rows: nat, columns: nat)
      ensures Valid() && fresh(data)
      ensures Shape() == [rows, columns]
      ensures forall i, j | 0 <= i < rows && 0 <= j < columns :: data[i, j] == 0.0
    {
      data := new real[rows, columns]((_, _) => 0.0);
      shape := [rows, columns];
    }

    /** `new Matrix(float[,])`: wraps the caller's buffer itself, without copying it. */
    constructor FromArray(data: array2<real>)
      ensures Valid() && this.data == data
      ensures Shape() == [data.Length0, data.Length1]
    {
      this.data := data;
      shape := [data.Length0, data.Length1];
    }

    /** `Shape`, as [rows, columns]. Matrix.cs declares no such accessor although its
        callers use one; it is modelled as a read of the buffer's dimensions. */
    function Shape(): (s: seq<int>)
      reads this
      ensures |s| == 2 && s[0] >= 0 && s[1] >= 0
    {
      [data.Length0, data.Length1]
    }

    /** `this[row, col]` read (assumed accessor): fails outside the shape. */
    function Get(row: int, col: int): (r: Result<real>)
      reads this, data
      ensures r.Success? <==> 0 <= row < Shape()[0] && 0 <= col < Shape()[1]
      ensures r.Success? ==> r.value == data[row, col]
      ensures r.Failure? ==> r.error == IndexOutOfRange
    {
      if 0 <= row < data.Length0 && 0 <= col < data.Length1 then Success(data[row, col])
      else Failure(IndexOutOfRange)
    }

    /** `this[row, col]` write (assumed accessor): changes that one cell, or fails and
        changes nothing. */
    method Set(row: int, col: int, v: real) returns (o: Outcome)
      modifies data
      ensures o.Pass? <==> 0 <= row < Shape()[0] && 0 <= col < Shape()[1]
      ensures o.Pass? ==> Get(row, col) == Success(v)
      ensures o.Fail? ==> o.error == IndexOutOfRange
      ensures forall i, j | 0 <= i < data.Length0 && 0 <= j < data.Length1 && (i != row || j != col) ::
        data[i, j] == old(data[i, j])
    {
      if 0 <= row < data.Length0 && 0 <= col < data.Length1 {
        data[row, col] := v;
        o := Pass;
      } else {
        o := Fail(IndexOutOfRange);
      }
    }

    /** `this[i]` read (assumed accessor): only a one-column matrix can be indexed by a
        single index, which selects a row. */
    function GetVector(i: int): (r: Result<real>)
      reads this, data
      ensures r.Success? <==> Shape()[1] == 1 && 0 <= i < Shape()[0]
      ensures r.Success? ==> r.value == data[i, 0]
      ensures Shape()[1] != 1 ==> r == Failure(NotColumnVector)
      ensures Shape()[1] == 1 && !(0 <= i < Shape()[0]) ==> r == Failure(IndexOutOfRange)
    {
      if data.Length1 != 1 then Failure(NotColumnVector)
      else if 0 <= i < data.Length0 then Success(data[i, 0])
      else Failure(IndexOutOfRange)
    }

    /** `this[i]` write (assumed accessor), the single-index counterpart of Set. */
    method SetVector(i: int, v: real) returns (o: Outcome)
      modifies data
      ensures o.Pass? <==> Shape()[1] == 1 && 0 <= i < Shape()[0]
      ensures o.Pass? ==> GetVector(i) == Success(v)
      ensures o.Fail? ==> o.error == (if Shape()[1] != 1 then NotColumnVector else IndexOutOfRange)
      ensures forall k, j | 0 <= k < data.Length0 && 0 <= j < data.Length1 && (k != i || j != 0) ::
        data[k, j] == old(data[k, j])
      ensures o.Fail? ==> forall k, j | 0 <= k < data.Length0 && 0 <= j < data.Length1 ::
        data[k, j] == old(data[k, j])
    {
      if data.Length1 != 1 {
        o := Fail(NotColumnVector);
      } else if 0 <= i < data.Length0 {
        data[i, 0] := v;
        o := Pass;
      } else {
        o := Fail(IndexOutOfRange);
      }
    }

    /** `Matrix.ZeroMatrix(rows, columns)`: the same as `new Matrix(rows, columns)`. */
    static method ZeroMatrix(rows: nat, columns: nat) returns (m: Matrix)
      ensures fresh(m) && fresh(m.data) && m.Valid()
      ensures m.Shape() == [rows, columns]
      ensures forall i, j | 0 <= i < rows && 0 <= j < columns :: m.data[i, j] == 0.0
    {
      m := new Matrix(rows, columns);
    }

    /** `Matrix.GaussianMatrix(rows, columns, mean, stdDev)`: a fresh rows x columns matrix
        whose cell (i, j) holds the value the sampler draws for it, filled row by row. */
    static method GaussianMatrix(rows: nat, columns: nat, sample: (int, int) -> real) returns (m: Matrix)
      ensures fresh(m) && fresh(m.data) && m.Valid()
      ensures m.Shape() == [rows, columns]
      ensures forall i, j | 0 <= i < rows && 0 <= j < columns :: m.data[i, j] == sample(i, j)
    {
      var d := new real[rows, columns];
      for i := 0 to rows
        invariant forall k, l | 0 <= k < i && 0 <= l < columns :: d[k, l] == sample(k, l)
      {
        for j := 0 to columns
          invariant forall k, l | 0 <= k < i && 0 <= l < columns :: d[k, l] == sample(k, l)
          invariant forall l | 0 <= l < j :: d[i, l] == sample(i, l)
        {
          d[i, j] := sample(i, j);
        }
      }
      m := new Matrix.FromArray(d);
    }
  }
}
