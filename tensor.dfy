/** A batch of matrices with a declared shape [batch, rows, columns] (NEA/Tensor/Tensor.cs). */
module Tensors {
  import opened Wrappers
  import opened Matrices

  class Tensor {
    /** The matrix held in each batch slot; slots hold references and may share them. */
    var data: array<Matrix>
    /** `Shape`, recorded at construction as [batches, rows, columns] and never updated. */
    var shape: seq<int>

    /** The recorded shape has three entries and its batch size is the number of slots. */
    ghost predicate Valid()
      reads this
    {
      |shape| == 3 && shape[0] == data.Length
    }

    /** No two slots share a cell buffer (so no two slots hold the same matrix either). */
    ghost predicate DistinctBuffers()
      reads this, data, data[..]
    {
      forall b, c | 0 <= b < c < data.Length :: data[b].data != data[c].data
    }

    /** `new Tensor(batches, rows, columns)` when it returns normally: each slot gets its own
        fresh zero matrix. With no slot no matrix is allocated, so the row and column counts
        are then recorded unchecked, negative or not. */
    constructor (batches: nat, rows: int, columns: int)
      requires batches == 0 || (rows >= 0 && columns >= 0)
      ensures Valid() && fresh(data) && DistinctBuffers()
      ensures shape == [batches, rows, columns]
      ensures forall b | 0 <= b < batches ::
        fresh(data[b]) && fresh(data[b].data) && data[b].Valid() && data[b].Shape() == [rows, columns] &&
        forall i, j | 0 <= i < rows && 0 <= j < columns :: data[b].data[i, j] == 0.0
    {
      var items: seq<Matrix> := [];
      while |items| < batches
        invariant |items| <= batches
        invariant forall b | 0 <= b < |items| ::
          fresh(items[b]) && fresh(items[b].data) && items[b].Valid() && items[b].Shape() == [rows, columns] &&
          forall i, j | 0 <= i < rows && 0 <= j < columns :: items[b].data[i, j] == 0.0
        invariant forall b, c | 0 <= b < c < |items| :: items[b].data != items[c].data
      {
        var m := new Matrix(rows, columns);
        items := items + [m];
      }
      data := new Matrix[batches](b requires 0 <= b < batches => items[b]);
      shape := [batches, rows, columns];
    }

    /** `new Tensor(batches, rows, columns)` with its exceptions: allocating the slot array
        throws for a negative batch count, and allocating a matrix throws for a negative row
        or column count, which happens only when there is a slot to fill. */
    static method Create(batches: int, rows: int, columns: int) returns (r: Result<Tensor>)
      ensures r.Failure? <==> batches < 0 || (batches > 0 && (rows < 0 || columns < 0))
      ensures r.Failure? ==> r.error == Overflow
      ensures r.Success? ==> fresh(r.value) && fresh(r.value.data) && r.value.Valid() && r.value.DistinctBuffers()
      ensures r.Success? ==> r.value.shape == [batches, rows, columns]
      ensures r.Success? ==> forall b | 0 <= b < batches ::
        fresh(r.value.data[b]) && fresh(r.value.data[b].data) && r.value.data[b].Valid() && r.value.data[b].Shape() == [rows, columns] &&
        forall i, j | 0 <= i < rows && 0 <= j < columns :: r.value.data[b].data[i, j] == 0.0
    {
      if batches < 0 || (batches > 0 && (rows < 0 || columns < 0)) {
        return Failure(Overflow);
      }
      var t := new Tensor(batches, rows, columns);
      r := Success(t);
    }

    /** `this[idx]` read: only a tensor of batch size 1 can be indexed this way; it reads
        entry idx of the vector in slot 0. */
    function GetIndex(idx: int): (r: Result<real>)
      requires Valid()
      reads this, data, data[..], set m | m in data[..] :: m.data
      ensures r.Success? <==> shape[0] == 1 && data[0].data.Length1 == 1 && 0 <= idx < data[0].data.Length0
      ensures r.Success? ==> r.value == data[0].data[idx, 0]
      ensures shape[0] != 1 ==> r == Failure(UnsuitableIndexing)
      ensures shape[0] == 1 && data[0].data.Length1 != 1 ==> r == Failure(NotColumnVector)
    {
      if shape[0] == 1 then data[0].GetVector(idx) else Failure(UnsuitableIndexing)
    }

    /** `this[idx]` write: writes entry idx of the vector in slot 0 when the batch size is 1. */
    method SetIndex(idx: int, v: real) returns (o: Outcome)
      requires Valid()
      modifies if shape[0] == 1 then {data[0].data} else {}
      ensures shape[0] != 1 ==> o == Fail(UnsuitableIndexing)
      ensures shape[0] == 1 ==> (o.Pass? <==> data[0].Shape()[1] == 1 && 0 <= idx < data[0].Shape()[0])
      ensures shape[0] == 1 && o.Fail? ==> o.error == (if data[0].Shape()[1] != 1 then NotColumnVector else IndexOutOfRange)
      ensures o.Pass? ==> GetIndex(idx) == Success(v)
      ensures shape[0] == 1 ==> forall i, j | 0 <= i < data[0].data.Length0 && 0 <= j < data[0].data.Length1 && (i != idx || j != 0) ::
        data[0].data[i, j] == old(data[0].data[i, j])
      ensures shape[0] == 1 && o.Fail? ==> forall i, j | 0 <= i < data[0].data.Length0 && 0 <= j < data[0].data.Length1 ::
        data[0].data[i, j] == old(data[0].data[i, j])
    {
      if shape[0] == 1 {
        o := data[0].SetVector(idx, v);
      } else {
        o := Fail(UnsuitableIndexing);
      }
    }

    /** `this[row, col]` read: the cell of the matrix in slot 0, when the batch size is 1. */
    function GetCell(row: int, col: int): (r: Result<real>)
      requires Valid()
      reads this, data, data[..], set m | m in data[..] :: m.data
      ensures r.Success? <==> shape[0] == 1 && 0 <= row < data[0].data.Length0 && 0 <= col < data[0].data.Length1
      ensures r.Success? ==> r.value == data[0].data[row, col]
      ensures shape[0] != 1 ==> r == Failure(UnsuitableIndexing)
      ensures shape[0] == 1 && r.Failure? ==> r.error == IndexOutOfRange
    {
      if shape[0] == 1 then data[0].Get(row, col) else Failure(UnsuitableIndexing)
    }

    /** `this[row, col]` write: sets the cell of the matrix in slot 0 when the batch size is 1. */
    method SetCell(row: int, col: int, v: real) returns (o: Outcome)
      requires Valid()
      modifies if shape[0] == 1 then {data[0].data} else {}
      ensures shape[0] != 1 ==> o == Fail(UnsuitableIndexing)
      ensures shape[0] == 1 ==> (o.Pass? <==> 0 <= row < data[0].Shape()[0] && 0 <= col < data[0].Shape()[1])
      ensures shape[0] == 1 && o.Fail? ==> o.error == IndexOutOfRange
      ensures o.Pass? ==> GetCell(row, col) == Success(v)
      ensures shape[0] == 1 ==> forall i, j | 0 <= i < data[0].data.Length0 && 0 <= j < data[0].data.Length1 && (i != row || j != col) ::
        data[0].data[i, j] == old(data[0].data[i, j])
    {
      if shape[0] == 1 {
        o := data[0].Set(row, col, v);
      } else {
        o := Fail(UnsuitableIndexing);
      }
    }

    /** `this[batch, row, col]` read: the cell of the matrix in slot batch. */
    function GetBatchCell(batch: int, row: int, col: int): (r: Result<real>)
      reads this, data, data[..], set m | m in data[..] :: m.data
      ensures r.Success? <==> 0 <= batch < data.Length && 0 <= row < data[batch].data.Length0 && 0 <= col < data[batch].data.Length1
      ensures r.Success? ==> r.value == data[batch].data[row, col]
      ensures r.Failure? ==> r.error == IndexOutOfRange
    {
      if 0 <= batch < data.Length then data[batch].Get(row, col) else Failure(IndexOutOfRange)
    }

    /** `this[batch, row, col]` write: changes that one cell of the matrix in slot batch. */
    method SetBatchCell(batch: int, row: int, col: int, v: real) returns (o: Outcome)
      modifies if 0 <= batch < data.Length then {data[batch].data} else {}
      ensures o.Pass? <==> 0 <= batch < data.Length && 0 <= row < data[batch].Shape()[0] && 0 <= col < data[batch].Shape()[1]
      ensures o.Fail? ==> o.error == IndexOutOfRange
      ensures o.Pass? ==> GetBatchCell(batch, row, col) == Success(v)
      ensures 0 <= batch < data.Length ==>
        forall i, j | 0 <= i < data[batch].data.Length0 && 0 <= j < data[batch].data.Length1 && (i != row || j != col) ::
          data[batch].data[i, j] == old(data[batch].data[i, j])
    {
      if 0 <= batch < data.Length {
        o := data[batch].Set(row, col, v);
      } else {
        o := Fail(IndexOutOfRange);
      }
    }

    /** `GetItem(idx)`: the matrix object in slot idx itself, not a copy. */
    function GetItem(idx: int): (r: Result<Matrix>)
      reads this, data
      ensures r.Success? <==> 0 <= idx < data.Length
      ensures r.Success? ==> r.value == data[idx]
      ensures r.Failure? ==> r.error == IndexOutOfRange
    {
      if 0 <= idx < data.Length then Success(data[idx]) else Failure(IndexOutOfRange)
    }

    /** `SetItem(idx, m)`: puts the object m in slot idx; m's shape is not checked against
        the declared shape, and the shape is not updated. */
    method SetItem(idx: int, m: Matrix) returns (o: Outcome)
      requires Valid()
      modifies data
      ensures Valid() && shape == old(shape)
      ensures o.Pass? <==> 0 <= idx < data.Length
      ensures o.Fail? ==> o.error == IndexOutOfRange
      ensures o.Pass? ==> data[..] == old(data[..])[idx := m]
      ensures o.Fail? ==> data[..] == old(data[..])
    {
      if 0 <= idx < data.Length {
        data[idx] := m;
        o := Pass;
      } else {
        o := Fail(IndexOutOfRange);
      }
    }
  }

  /** A matrix stored with SetItem is the very object GetItem later returns. */
  method SetThenGetItem(t: Tensor, idx: int, m: Matrix) returns (r: Result<Matrix>)
    requires t.Valid()
    modifies t.data
    ensures 0 <= idx < t.data.Length ==> r == Success(m)
    ensures !(0 <= idx < t.data.Length) ==> r == Failure(IndexOutOfRange)
  {
    var _ := t.SetItem(idx, m);
    r := t.GetItem(idx);
  }

  /** GetItem shares the slot's matrix: a cell written through the returned reference is
      what the tensor's three-index accessor then reads. */
  method WriteThroughGetItem(t: Tensor, batch: int, row: int, col: int, v: real) returns (seen: Result<real>)
    requires 0 <= batch < t.data.Length
    requires 0 <= row < t.data[batch].data.Length0 && 0 <= col < t.data[batch].data.Length1
    modifies t.data[batch].data
    ensures seen == Success(v)
  {
    var item := t.GetItem(batch);
    var _ := item.value.Set(row, col, v);
    seen := t.GetBatchCell(batch, row, col);
  }
}
