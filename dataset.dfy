/** A table of nullable floats held as a jagged array of rows (NEA/Utils/Data/DataSet.cs).
    Rows are array objects: the table may share them with its caller and between its own
    slots. The operations that rebuild the table keep the row objects themselves, except
    `RemoveFeature`, which replaces every row with a fresh, shorter one. */
module DataSets {
  import opened Wrappers

  /** One cell, `float?`: None stands for null. */
  type Cell = Option<real>

  /** A fresh array holding the given elements (the `ToArray()` of a list). */
  method ArrayOf<T>(s: seq<T>) returns (a: array<T>)
    ensures fresh(a) && a[..] == s
  {
    a := new T[|s|](k requires 0 <= k < |s| => s[k]);
  }

  /** `List<T>.RemoveAt(k)` on the list's contents. */
  function RemovedAt<T>(s: seq<T>, k: int): (r: seq<T>)
    requires 0 <= k < |s|
    ensures |r| == |s| - 1
    ensures forall i | 0 <= i < k :: r[i] == s[i]
    ensures forall i | k <= i < |r| :: r[i] == s[i + 1]
  {
    s[..k] + s[k + 1..]
  }

  /** A row without a null cell (the negation of `Array.Exists(entry, item => item == null)`). */
  predicate Complete(row: array<Cell>)
    reads row
  {
    forall k | 0 <= k < row.Length :: row[k].Some?
  }

  /** What `List<T>.RemoveAll(...)` keeps of the rows: the complete ones, in their order. */
  function KeepComplete(rows: seq<array<Cell>>): (kept: seq<array<Cell>>)
    reads set r | r in rows
    ensures |kept| <= |rows|
    ensures forall i | 0 <= i < |kept| :: kept[i] in rows && Complete(kept[i])
    ensures forall i | 0 <= i < |rows| :: Complete(rows[i]) ==> rows[i] in kept
  {
    if |rows| == 0 then []
    else (if Complete(rows[0]) then [rows[0]] else []) + KeepComplete(rows[1..])
  }

  /** The number of rows holding a null, which `RemoveAll` returns. */
  function IncompleteCount(rows: seq<array<Cell>>): (n: nat)
    reads set r | r in rows
    ensures n <= |rows|
  {
    if |rows| == 0 then 0
    else (if Complete(rows[0]) then 0 else 1) + IncompleteCount(rows[1..])
  }

  /** The kept rows and the removed ones together are all the rows. */
  lemma {:induction false} KeepCompleteCount(rows: seq<array<Cell>>)
    ensures |KeepComplete(rows)| + IncompleteCount(rows) == |rows|
  {
    if |rows| > 0 {
      KeepCompleteCount(rows[1..]);
    }
  }

  /** A table whose rows are all complete loses nothing. */
  lemma {:induction false} KeepAllComplete(rows: seq<array<Cell>>)
    requires forall i | 0 <= i < |rows| :: Complete(rows[i])
    ensures KeepComplete(rows) == rows
  {
    if |rows| > 0 {
      KeepAllComplete(rows[1..]);
    }
  }

  /** Cleaning twice keeps what cleaning once keeps. */
  lemma KeepCompleteIdempotent(rows: seq<array<Cell>>)
    ensures KeepComplete(KeepComplete(rows)) == KeepComplete(rows)
  {
    KeepAllComplete(KeepComplete(rows));
  }

  /** s with the elements at i and j exchanged. */
  function Swap<T>(s: seq<T>, i: int, j: int): (r: seq<T>)
    requires 0 <= i < |s| && 0 <= j < |s|
    ensures |r| == |s| && r[i] == s[j] && r[j] == s[i]
    ensures forall k | 0 <= k < |s| && k != i && k != j :: r[k] == s[k]
  {
    s[i := s[j]][j := s[i]]
  }

  /** The pick the loop step at index k may draw: `rand.Next(0, k + 1)` lies in [0, k]. */
  ghost predicate ShufflePicks(picks: seq<int>, n: int)
  {
    |picks| >= n && forall k | 0 <= k < n :: 0 <= picks[k] <= k
  }

  /** The Fisher-Yates steps hi - 1 down to 0 applied to s: step k swaps s[k] with
      s[picks[k]]. */
  ghost function FisherYates<T>(s: seq<T>, picks: seq<int>, hi: nat): (r: seq<T>)
    requires hi <= |s| && ShufflePicks(picks, hi)
    ensures |r| == |s|
    decreases hi
  {
    if hi == 0 then s else FisherYates(Swap(s, hi - 1, picks[hi - 1]), picks, hi - 1)
  }

  /** The shuffle only reorders: the result holds the same rows, each as often. */
  lemma {:induction false} FisherYatesPermutes<T>(s: seq<T>, picks: seq<int>, hi: nat)
    requires hi <= |s| && ShufflePicks(picks, hi)
    ensures multiset(FisherYates(s, picks, hi)) == multiset(s)
    decreases hi
  {
    if hi > 0 {
      var t := Swap(s, hi - 1, picks[hi - 1]);
      FisherYatesPermutes(t, picks, hi - 1);
      assert t == s[hi - 1 := s[picks[hi - 1]]][picks[hi - 1] := s[hi - 1]];
    }
  }

  /** The steps below hi never touch the entries from hi on. */
  lemma {:induction false} FisherYatesKeepsTail<T>(s: seq<T>, picks: seq<int>, hi: nat)
    requires hi <= |s| && ShufflePicks(picks, hi)
    ensures forall k | hi <= k < |s| :: FisherYates(s, picks, hi)[k] == s[k]
    decreases hi
  {
    if hi > 0 {
      FisherYatesKeepsTail(Swap(s, hi - 1, picks[hi - 1]), picks, hi - 1);
    }
  }

  /** LINQ `Enumerable.Take(n)` over the row array: the first n rows, clamped to [0, |s|]. */
  function Take<T>(s: seq<T>, n: int): (r: seq<T>)
    ensures |r| == if n <= 0 then 0 else if n >= |s| then |s| else n
    ensures forall i | 0 <= i < |r| :: r[i] == s[i]
  {
    if n <= 0 then [] else if n >= |s| then s else s[..n]
  }

  /** `Skip(n)`: the rows after the first n, clamped the same way. */
  function Skip<T>(s: seq<T>, n: int): (r: seq<T>)
    ensures |r| == if n <= 0 then |s| else if n >= |s| then 0 else |s| - n
    ensures forall i | 0 <= i < |r| :: r[i] == s[|s| - |r| + i]
  {
    if n <= 0 then s else if n >= |s| then [] else s[n..]
  }

  /** Take and Skip at the same point split every sequence into two parts that rejoin to it. */
  lemma TakeSkip<T>(s: seq<T>, n: int)
    ensures Take(s, n) + Skip(s, n) == s
  {
    if 0 < n < |s| {
      assert s[..n] + s[n..] == s;
    }
  }

  class DataSet {
    /** The rows; `float?[][]` in the library. */
    var data: array<array<Cell>>

    /** `new DataSet()`: no rows. */
    constructor Empty()
      ensures fresh(data) && data.Length == 0
    {
      data := new array<Cell>[0];
    }

    /** `new DataSet(float?[][])`: keeps the caller's array itself. */
    constructor FromRows(rows: array<array<Cell>>)
      ensures data == rows
    {
      data := rows;
    }

    /** The row objects, in slot order. */
    ghost function Rows(): (r: seq<array<Cell>>)
      reads this, data
    {
      data[..]
    }

    /** `Count`: the number of rows. */
    function Count(): (n: nat)
      reads this
      ensures n == data.Length
    {
      data.Length
    }

    /** `Features`: the length of row 0, which does not exist when the table is empty. */
    function Features(): (r: Result<int>)
      reads this, data
      ensures data.Length == 0 ==> r == Failure(IndexOutOfRange)
      ensures data.Length > 0 ==> r == Success(data[0].Length)
    {
      if data.Length == 0 then Failure(IndexOutOfRange) else Success(data[0].Length)
    }

    /** `this[row, column]` read. */
    function GetCell(row: int, column: int): (r: Result<Cell>)
      reads this, data, data[..]
      ensures r.Success? <==> 0 <= row < data.Length && 0 <= column < data[row].Length
      ensures r.Success? ==> r.value == data[row][column]
      ensures r.Failure? ==> r.error == IndexOutOfRange
    {
      if 0 <= row < data.Length && 0 <= column < data[row].Length then Success(data[row][column])
      else Failure(IndexOutOfRange)
    }

    /** `this[row, column]` write: changes that cell of the row object, so every slot
        sharing that object sees the change; the rows themselves stay where they are. */
    method SetCell(row: int, column: int, v: Cell) returns (o: Outcome)
      modifies if 0 <= row < data.Length then {data[row]} else {}
      ensures o.Pass? <==> 0 <= row < data.Length && 0 <= column < data[row].Length
      ensures o.Fail? ==> o.error == IndexOutOfRange
      ensures o.Pass? ==> GetCell(row, column) == Success(v)
      ensures 0 <= row < data.Length && o.Pass? ==> data[row][..] == old(data[row][..])[column := v]
      ensures 0 <= row < data.Length && o.Fail? ==> data[row][..] == old(data[row][..])
    {
      if 0 <= row < data.Length && 0 <= column < data[row].Length {
        data[row][column] := v;
        o := Pass;
      } else {
        o := Fail(IndexOutOfRange);
      }
    }

    /** `this[index]` read: the row object itself. */
    function GetRow(index: int): (r: Result<array<Cell>>)
      reads this, data
      ensures r.Success? <==> 0 <= index < data.Length
      ensures r.Success? ==> r.value == data[index]
      ensures r.Failure? ==> r.error == IndexOutOfRange
    {
      if 0 <= index < data.Length then Success(data[index]) else Failure(IndexOutOfRange)
    }

    /** `this[index]` write: puts the row object in that slot; its length is not checked. */
    method SetRow(index: int, row: array<Cell>) returns (o: Outcome)
      modifies data
      ensures o.Pass? <==> 0 <= index < data.Length
      ensures o.Fail? ==> o.error == IndexOutOfRange
      ensures o.Pass? ==> data[..] == old(data[..])[index := row]
      ensures o.Fail? ==> data[..] == old(data[..])
    {
      if 0 <= index < data.Length {
        data[index] := row;
        o := Pass;
      } else {
        o := Fail(IndexOutOfRange);
      }
    }

    /** `Clean()`: replaces the table by a fresh array of its complete rows, in order, and
        returns how many rows were dropped; afterwards no cell is null. */
    method Clean() returns (removed: int)
      modifies this`data
      ensures fresh(data) && data[..] == KeepComplete(old(data[..]))
      ensures removed == IncompleteCount(old(data[..])) == old(data.Length) - data.Length
      ensures forall i, k | 0 <= i < data.Length && 0 <= k < data[i].Length :: data[i][k].Some?
    {
      var kept := KeepComplete(data[..]);
      KeepCompleteCount(data[..]);
      removed := data.Length - |kept|;
      data := ArrayOf(kept);
      assert forall i | 0 <= i < data.Length :: Complete(data[i]) by {
        assert forall i | 0 <= i < data.Length :: data[i] == kept[i];
      }
    }

    /** `Shuffle()`: for k from Count - 1 down to 0, swaps row k with row picks[k], where
        picks[k] is what `rand.Next(0, k + 1)` drew; the rows are only reordered. */
    method Shuffle(picks: seq<int>)
      requires ShufflePicks(picks, data.Length)
      modifies data
      ensures data[..] == FisherYates(old(data[..]), picks, data.Length)
      ensures multiset(Rows()) == multiset(old(Rows()))
    {
      ghost var start, n := data[..], data.Length;
      for i := data.Length downto 0
        invariant FisherYates(data[..], picks, i) == FisherYates(start, picks, n)
      {
        ghost var before := data[..];
        var swapIdx := picks[i];
        var tmp := data[i];
        data[i] := data[swapIdx];
        data[swapIdx] := tmp;
        assert data[..] == Swap(before, i, swapIdx);
      }
      FisherYatesPermutes(start, picks, n);
    }

    /** The indices the sampling loop may draw: `rand.Next(0, Count - 1)` lies in
        [0, Count - 1), and `Next(0, 0)` returns 0. */
    ghost predicate SamplePicks(picks: seq<int>, nItems: int)
      reads this
    {
      |picks| >= nItems && forall k | 0 <= k < nItems :: 0 <= picks[k] < (if data.Length > 1 then data.Length - 1 else 1)
    }

    /** `RandomSample(nItems)`: throws when nItems exceeds Count (and, through the array
        allocation, when it is negative); otherwise entry i of the fresh result is a fresh
        copy of row picks[i]. The list of selected indices is never added to, so the
        re-draw loop never runs and a row can be copied more than once. */
    method RandomSample(nItems: int, picks: seq<int>) returns (r: Result<array<array<Cell>>>)
      requires SamplePicks(picks, nItems)
      ensures nItems > data.Length ==> r == Failure(SampleTooLarge)
      ensures nItems < 0 ==> r == Failure(Overflow)
      ensures r.Success? <==> 0 <= nItems <= data.Length
      ensures r.Success? ==> fresh(r.value) && r.value.Length == nItems
      ensures r.Success? ==> forall i | 0 <= i < nItems ::
        0 <= picks[i] < data.Length && fresh(r.value[i]) && r.value[i][..] == data[picks[i]][..]
    {
      if nItems > data.Length {
        return Failure(SampleTooLarge);
      }
      if nItems < 0 {
        return Failure(Overflow);
      }
      var sample: seq<array<Cell>> := [];
      for i := 0 to nItems
        invariant |sample| == i
        invariant forall k | 0 <= k < i ::
          0 <= picks[k] < data.Length && fresh(sample[k]) && sample[k][..] == data[picks[k]][..]
      {
        var index := picks[i];
        var copy := ArrayOf(data[index][..]);
        sample := sample + [copy];
      }
      var a := ArrayOf(sample);
      r := Success(a);
    }

    /** `RemoveFeature(index)`: replaces each row, in order, by a fresh row without the cell
        at index. The first row too short for index throws, leaving the rows before it
        replaced and the rest untouched. */
    method RemoveFeature(index: int) returns (o: Outcome)
      modifies data
      ensures var f := FirstShort(old(data[..]), index);
        && (o.Pass? <==> f == data.Length)
        && (forall i | 0 <= i < f :: fresh(data[i]) && data[i][..] == RemovedAt(old(data[i][..]), index))
        && (forall i | f <= i < data.Length :: data[i] == old(data[i]))
      ensures o.Fail? ==> o.error == ArgumentOutOfRange
    {
      ghost var rows := data[..];
      for i := 0 to data.Length
        invariant i <= FirstShort(rows, index)
        invariant forall k | 0 <= k < i :: fresh(data[k]) && data[k][..] == RemovedAt(old(data[k][..]), index)
        invariant forall k | i <= k < data.Length :: data[k] == rows[k]
      {
        var item := data[i][..];
        if !(0 <= index < |item|) {
          return Fail(ArgumentOutOfRange);
        }
        var row := ArrayOf(RemovedAt(item, index));
        data[i] := row;
      }
      o := Pass;
    }

    /** `RemoveElementAt(index)`: replaces the table by a fresh array without row index, or
        throws and changes nothing when there is no such row. */
    method RemoveElementAt(index: int) returns (o: Outcome)
      modifies this`data
      ensures o.Pass? <==> 0 <= index < old(data.Length)
      ensures o.Fail? ==> o.error == ArgumentOutOfRange && data == old(data)
      ensures o.Pass? ==> fresh(data) && data[..] == RemovedAt(old(data[..]), index)
    {
      if !(0 <= index < data.Length) {
        return Fail(ArgumentOutOfRange);
      }
      data := ArrayOf(RemovedAt(data[..], index));
      o := Pass;
    }

    /** `TrainTestSplit(fraction)`: two fresh tables, the rows before the split point
        Floor(Count * fraction) and the rows from it on, sharing the row objects with this
        table; the receiver is not changed. */
    method TrainTestSplit(fraction: real) returns (train: DataSet, test: DataSet)
      ensures fresh(train) && fresh(train.data) && fresh(test) && fresh(test.data)
      ensures train.data[..] == Take(data[..], SplitPoint(data.Length, fraction))
      ensures test.data[..] == Skip(data[..], SplitPoint(data.Length, fraction))
      ensures train.data[..] + test.data[..] == data[..]
    {
      var splitPnt := SplitPoint(data.Length, fraction);
      var trainSet := ArrayOf(Take(data[..], splitPnt));
      var testSet := ArrayOf(Skip(data[..], splitPnt));
      TakeSkip(data[..], splitPnt);
      train := new DataSet.FromRows(trainSet);
      test := new DataSet.FromRows(testSet);
    }

    /** `ToArray()`: the table's own array, not a copy. */
    method ToArray() returns (r: array<array<Cell>>)
      ensures r == data
    {
      r := data;
    }
  }

  /** The first row too short to lose the cell at index, or the number of rows when every
      row has that cell. */
  function FirstShort(rows: seq<array<Cell>>, index: int): (f: nat)
    ensures f <= |rows|
    ensures forall k | 0 <= k < f :: 0 <= index < rows[k].Length
    ensures f < |rows| ==> !(0 <= index < rows[f].Length)
  {
    if |rows| == 0 || !(0 <= index < rows[0].Length) then 0
    else 1 + FirstShort(rows[1..], index)
  }

  /** `(int)MathF.Floor(count * fraction)`, taken as the largest integer not above the real
      product; the `int` cast of a product beyond the `int` range is not modelled. */
  function SplitPoint(count: int, fraction: real): (p: int)
    ensures p as real <= count as real * fraction < p as real + 1.0
  {
    (count as real * fraction).Floor
  }

  /** A sample of two rows from a two-row table copies row 0 twice: the draw range
      [0, Count - 1) never reaches the last row, and nothing prevents a repeat. */
  method SampleOfTwoRows(d: DataSet, picks: seq<int>) returns (r: Result<array<array<Cell>>>)
    requires d.data.Length == 2 && d.SamplePicks(picks, 2)
    ensures r.Success? && r.value.Length == 2
    ensures r.value[0][..] == r.value[1][..] == d.data[0][..]
  {
    r := d.RandomSample(2, picks);
  }

  /** A sampled row is a copy: it holds the cells of the row it was drawn from, but it is
      not one of the table's row objects, so a membership test by reference fails. */
  method SampleRowIsACopy(d: DataSet, picks: seq<int>) returns (r: Result<array<array<Cell>>>)
    requires d.data.Length >= 1 && d.SamplePicks(picks, 1)
    ensures r.Success? && r.value.Length == 1
    ensures r.value[0][..] == d.data[picks[0]][..]
    ensures r.value[0] !in d.data[..]
  {
    r := d.RandomSample(1, picks);
  }
}
