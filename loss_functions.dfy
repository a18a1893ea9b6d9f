/** The loss functions (NEA/NeuralNetwork/LossFunctions.cs). None of them writes to its
    arguments: no method here has a modifies clause on x or y. */
module LossFunctions {
  import opened Wrappers
  import opened Numerics
  import opened Matrices
  import opened Tensors

  /** `checkShapeEqual(Tensor, Tensor)`: passes exactly when the two declared shapes are
      equal entry by entry. */
  function CheckShapeEqualTensor(a: Tensor, b: Tensor): (o: Outcome)
    reads a, b
    ensures o.Pass? <==> |a.shape| == |b.shape| && forall k | 0 <= k < |a.shape| :: a.shape[k] == b.shape[k]
    ensures o.Fail? ==> o.error == DimensionMismatch
  {
    if a.shape == b.shape then Pass else Fail(DimensionMismatch)
  }

  /** `checkShapeEqual(Matrix, Matrix)`: passes exactly when both matrices have the same
      number of rows and the same number of columns. */
  function CheckShapeEqualMatrix(a: Matrix, b: Matrix): (o: Outcome)
    reads a, b
    ensures o.Pass? <==> a.data.Length0 == b.data.Length0 && a.data.Length1 == b.data.Length1
    ensures o.Fail? ==> o.error == DimensionMismatch
  {
    if a.Shape() == b.Shape() then Pass else Fail(DimensionMismatch)
  }

  // ----- mean squared error -----

  /** The sum of (x[k] - y[k])^2 over k < n. */
  ghost function RowSquaredError(x: seq<real>, y: seq<real>, n: nat): (e: real)
    requires n <= |x| && n <= |y|
  {
    if n == 0 then 0.0 else RowSquaredError(x, y, n - 1) + (x[n - 1] - y[n - 1]) * (x[n - 1] - y[n - 1])
  }

  /** Two grids of the same shape. */
  ghost predicate SameShape(x: Grid, y: Grid)
  {
    |x| == |y| && forall i | 0 <= i < |x| :: |x[i]| == |y[i]|
  }

  /** The sum of (x[i][j] - y[i][j])^2 over the cells of the rows i < m. */
  ghost function SquaredError(x: Grid, y: Grid, m: nat): (e: real)
    requires SameShape(x, y) && m <= |x|
  {
    if m == 0 then 0.0 else SquaredError(x, y, m - 1) + RowSquaredError(x[m - 1], y[m - 1], |x[m - 1]|)
  }

  /** The mean squared error of two matrices of the same shape: the squared error over all
      cells divided by the number of cells, or NaN (0 / 0 in float arithmetic) when there is
      no cell. */
  ghost function MeanSquaredError(x: Grid, y: Grid, cells: int): (r: Scalar)
    requires SameShape(x, y)
  {
    if cells == 0 then NaN else Num(SquaredError(x, y, |x|) / (cells as real))
  }

  lemma {:induction false} RowSquaredErrorNonNegative(x: seq<real>, y: seq<real>, n: nat)
    requires n <= |x| && n <= |y|
    ensures RowSquaredError(x, y, n) >= 0.0
  {
    if n > 0 {
      RowSquaredErrorNonNegative(x, y, n - 1);
    }
  }

  /** The squared error is never negative. */
  lemma {:induction false} SquaredErrorNonNegative(x: Grid, y: Grid, m: nat)
    requires SameShape(x, y) && m <= |x|
    ensures SquaredError(x, y, m) >= 0.0
  {
    if m > 0 {
      SquaredErrorNonNegative(x, y, m - 1);
      RowSquaredErrorNonNegative(x[m - 1], y[m - 1], |x[m - 1]|);
    }
  }

  lemma {:induction false} RowSquaredErrorOfEqual(x: seq<real>, n: nat)
    requires n <= |x|
    ensures RowSquaredError(x, x, n) == 0.0
  {
    if n > 0 {
      RowSquaredErrorOfEqual(x, n - 1);
    }
  }

  /** The squared error of a grid against itself is zero. */
  lemma {:induction false} SquaredErrorOfEqual(x: Grid, m: nat)
    requires m <= |x|
    ensures SameShape(x, x) && SquaredError(x, x, m) == 0.0
  {
    if m > 0 {
      SquaredErrorOfEqual(x, m - 1);
      RowSquaredErrorOfEqual(x[m - 1], |x[m - 1]|);
    }
  }

  /** The mean squared error of a non-empty matrix is a number, never negative, and zero
      when the two matrices are equal cell by cell. */
  lemma MeanSquaredErrorBounds(x: Grid, y: Grid, cells: int)
    requires SameShape(x, y) && cells > 0
    ensures MeanSquaredError(x, y, cells).Num?
    ensures MeanSquaredError(x, y, cells).value >= 0.0
    ensures x == y ==> MeanSquaredError(x, y, cells).value == 0.0
  {
    SquaredErrorNonNegative(x, y, |x|);
    if x == y {
      SquaredErrorOfEqual(x, |x|);
    }
  }

  /** `MSELoss(Matrix, Matrix)`: checks the shapes, then accumulates (x - y)^2 over the rows
      and columns and divides by rows * columns. */
  method MSELossMatrix(x: Matrix, y: Matrix) returns (r: Result<Scalar>)
    ensures CheckShapeEqualMatrix(x, y).Fail? ==> r == Failure(DimensionMismatch)
    ensures CheckShapeEqualMatrix(x, y).Pass? ==>
      SameShape(Cells(x.data), Cells(y.data)) &&
      r == Success(MeanSquaredError(Cells(x.data), Cells(y.data), x.data.Length0 * x.data.Length1))
    ensures r == MatrixMeanSquaredError(x, y)
  {
    if CheckShapeEqualMatrix(x, y).Fail? {
      return Failure(DimensionMismatch);
    }
    ghost var X, Y := Cells(x.data), Cells(y.data);
    var rows, columns := x.data.Length0, x.data.Length1;
    var loss := 0.0;
    var nItems := rows * columns;
    for i := 0 to rows
      invariant loss == SquaredError(X, Y, i)
    {
      for j := 0 to columns
        invariant loss == SquaredError(X, Y, i) + RowSquaredError(X[i], Y[i], j)
      {
        loss := loss + (x.data[i, j] - y.data[i, j]) * (x.data[i, j] - y.data[i, j]);
      }
    }
    // 0 / 0 is NaN in float arithmetic
    if nItems == 0 {
      r := Success(NaN);
    } else {
      r := Success(Num(loss / nItems as real));
    }
  }

  /** The result MSELoss(Matrix, Matrix) returns for two matrices, and MSELoss(Tensor) stores
      for a batch slot. */
  ghost function MatrixMeanSquaredError(m: Matrix, n: Matrix): (r: Result<Scalar>)
    reads m, n, m.data, n.data
  {
    if CheckShapeEqualMatrix(m, n).Fail? then Failure(DimensionMismatch)
    else Success(MeanSquaredError(Cells(m.data), Cells(n.data), m.data.Length0 * m.data.Length1))
  }

  /** `MSELoss(Tensor, Tensor)`: checks the declared shapes, then stores the mean squared
      error of each batch slot's pair of matrices; a slot whose matrices differ in shape
      (possible after SetItem) makes the whole call throw. */
  method MSELossTensor(x: Tensor, y: Tensor) returns (r: Result<array<Scalar>>)
    requires x.Valid() && y.Valid()
    ensures CheckShapeEqualTensor(x, y).Fail? ==> r == Failure(DimensionMismatch)
    ensures CheckShapeEqualTensor(x, y).Pass? ==>
      (r.Success? <==> forall b | 0 <= b < x.data.Length :: old(MatrixMeanSquaredError(x.data[b], y.data[b])).Success?)
    ensures r.Failure? ==> r.error == DimensionMismatch
    ensures r.Success? ==> fresh(r.value) && r.value.Length == x.shape[0]
    ensures r.Success? ==> forall b | 0 <= b < r.value.Length ::
      Success(r.value[b]) == old(MatrixMeanSquaredError(x.data[b], y.data[b]))
  {
    if CheckShapeEqualTensor(x, y).Fail? {
      return Failure(DimensionMismatch);
    }
    var n := x.shape[0];
    ghost var ms, ns := x.data[..], y.data[..];
    var loss := new Scalar[n](_ => Num(0.0));
    for i := 0 to n
      invariant forall b | 0 <= b < i :: old(MatrixMeanSquaredError(ms[b], ns[b])) == Success(loss[b])
    {
      var item := MSELossMatrix(x.data[i], y.data[i]);
      if item.Failure? {
        return Failure(item.error);
      }
      loss[i] := item.value;
    }
    r := Success(loss);
  }

  // ----- cross entropy -----

  /** The index CrossEntropyLoss settles on: the last k with ys[k] == 1, or 0 when there is
      none. */
  function TargetIndex(ys: seq<real>): (t: nat)
    ensures |ys| == 0 ==> t == 0
    ensures |ys| > 0 ==> t < |ys|
    ensures (exists k | 0 <= k < |ys| :: ys[k] == 1.0) ==> ys[t] == 1.0 && forall k | t < k < |ys| :: ys[k] != 1.0
    ensures (forall k | 0 <= k < |ys| :: ys[k] != 1.0) ==> t == 0
  {
    if |ys| == 0 then 0
    else if ys[|ys| - 1] == 1.0 then |ys| - 1
    else
      var t := TargetIndex(ys[..|ys| - 1]);
      assert forall k | 0 <= k < |ys| - 1 :: ys[..|ys| - 1][k] == ys[k];
      t
  }

  /** The sum of e^xs[k] over the k with ys[k] != 1. */
  function NonTargetExpSum(math: MathLib, xs: seq<real>, ys: seq<real>): (s: real)
    requires |xs| == |ys|
  {
    if |xs| == 0 then 0.0
    else NonTargetExpSum(math, xs[..|xs| - 1], ys[..|ys| - 1]) + (if ys[|ys| - 1] == 1.0 then 0.0 else math.exp(xs[|xs| - 1]))
  }

  /** The exp-sum is never negative, and it is positive exactly when some entry is not a
      target (otherwise the logarithm is taken of 0). */
  lemma {:induction false} NonTargetExpSumPositive(math: MathLib, xs: seq<real>, ys: seq<real>)
    requires |xs| == |ys|
    ensures NonTargetExpSum(math, xs, ys) >= 0.0
    ensures NonTargetExpSum(math, xs, ys) > 0.0 <==> exists k | 0 <= k < |ys| :: ys[k] != 1.0
  {
    if |xs| > 0 {
      var xs', ys' := xs[..|xs| - 1], ys[..|ys| - 1];
      NonTargetExpSumPositive(math, xs', ys');
      assert forall k | 0 <= k < |ys'| :: ys'[k] == ys[k];
      if NonTargetExpSum(math, xs', ys') > 0.0 {
        var k :| 0 <= k < |ys'| && ys'[k] != 1.0;
        assert ys[k] != 1.0;
      }
    }
  }

  /** Column 0 of a buffer, the vector a one-column matrix stands for (zeros when the buffer
      has no column). */
  ghost function Column(a: array2<real>): (v: seq<real>)
    reads a
    ensures |v| == a.Length0
    ensures a.Length1 >= 1 ==> forall k | 0 <= k < a.Length0 :: v[k] == a[k, 0]
  {
    seq(a.Length0, k requires 0 <= k < a.Length0 reads a => if a.Length1 >= 1 then a[k, 0] else 0.0)
  }

  /** When CrossEntropyLoss(Matrix) returns normally: every single-index read it makes
      succeeds, that is, x is a non-empty column vector and y a column vector at least as
      long. The shapes are not compared. */
  ghost predicate CrossEntropyDefined(x: Matrix, y: Matrix)
    reads x, y
  {
    x.data.Length1 == 1 && y.data.Length1 == 1 && 0 < x.data.Length0 <= y.data.Length0
  }

  /** What CrossEntropyLoss(Matrix) returns when it returns normally: the log of the
      exp-sum over the non-target entries of x, minus x at the target index, both taken over
      the first rows-of-x entries. */
  ghost function CrossEntropy(math: MathLib, x: Matrix, y: Matrix): (r: real)
    requires CrossEntropyDefined(x, y)
    reads x, y, x.data, y.data
  {
    var xs, ys := Column(x.data), Column(y.data)[..x.data.Length0];
    math.log(NonTargetExpSum(math, xs, ys)) - xs[TargetIndex(ys)]
  }

  /** `CrossEntropyLoss(Matrix, Matrix)`: over i below the rows of x, an entry with
      y[i] == 1 becomes the target index and any other adds e^x[i] to the sum; the result is
      log(sum) - x[target]. It throws exactly when one of its single-index reads does. */
  method CrossEntropyLossMatrix(math: MathLib, x: Matrix, y: Matrix) returns (r: Result<real>)
    ensures r.Success? <==> CrossEntropyDefined(x, y)
    ensures r.Success? ==> r.value == CrossEntropy(math, x, y)
    ensures r.Failure? ==> r.error == NotColumnVector || r.error == IndexOutOfRange
  {
    ghost var xs, ys := Column(x.data), Column(y.data);
    var loss := 0.0;
    var targetIdx := 0;
    var n := x.data.Length0;
    for i := 0 to n
      invariant i > 0 ==> y.data.Length1 == 1 && i <= y.data.Length0
      invariant i <= |ys| && targetIdx == TargetIndex(ys[..i])
      invariant loss == NonTargetExpSum(math, xs[..i], ys[..i])
    {
      var yi := y.GetVector(i);
      if yi.Failure? {
        return Failure(yi.error);
      }
      assert xs[..i + 1][..i] == xs[..i] && ys[..i + 1][..i] == ys[..i];
      if yi.value == 1.0 {
        targetIdx := i;
      } else {
        var xi := x.GetVector(i);
        if xi.Failure? {
          return Failure(xi.error);
        }
        loss := loss + math.exp(xi.value);
      }
    }
    assert xs[..n] == xs;
    loss := math.log(loss);
    var xt := x.GetVector(targetIdx);
    if xt.Failure? {
      return Failure(xt.error);
    }
    r := Success(loss - xt.value);
  }

  /** `CrossEntropyLoss(Tensor, Tensor)` as written: checks the declared shapes and runs the
      Matrix overload on every batch slot (so its exceptions propagate), but discards each
      result and returns the freshly allocated array of zeros. */
  method CrossEntropyLossTensor(math: MathLib, x: Tensor, y: Tensor) returns (r: Result<array<real>>)
    requires x.Valid() && y.Valid()
    ensures CheckShapeEqualTensor(x, y).Fail? ==> r == Failure(DimensionMismatch)
    ensures CheckShapeEqualTensor(x, y).Pass? ==>
      (r.Success? <==> forall b | 0 <= b < x.data.Length :: CrossEntropyDefined(x.data[b], y.data[b]))
    ensures r.Success? ==> fresh(r.value) && r.value.Length == x.shape[0]
    ensures r.Success? ==> forall b | 0 <= b < r.value.Length :: r.value[b] == 0.0
    ensures CheckShapeEqualTensor(x, y).Pass? && r.Failure? ==> r.error == NotColumnVector || r.error == IndexOutOfRange
  {
    if CheckShapeEqualTensor(x, y).Fail? {
      return Failure(DimensionMismatch);
    }
    var n := x.shape[0];
    var loss := new real[n](_ => 0.0);
    for i := 0 to n
      invariant forall b | 0 <= b < n :: loss[b] == 0.0
      invariant forall b | 0 <= b < i :: CrossEntropyDefined(x.data[b], y.data[b])
    {
      var item := CrossEntropyLossMatrix(math, x.data[i], y.data[i]);
      if item.Failure? {
        return Failure(item.error);
      }
    }
    r := Success(loss);
  }

  /** `CrossEntropyLoss(Tensor, Tensor)` as evidently intended: the same checks, and entry b
      of the result is the Matrix overload's loss for batch slot b. */
  method CrossEntropyLossTensorStored(math: MathLib, x: Tensor, y: Tensor) returns (r: Result<array<real>>)
    requires x.Valid() && y.Valid()
    ensures CheckShapeEqualTensor(x, y).Fail? ==> r == Failure(DimensionMismatch)
    ensures CheckShapeEqualTensor(x, y).Pass? ==>
      (r.Success? <==> forall b | 0 <= b < x.data.Length :: CrossEntropyDefined(x.data[b], y.data[b]))
    ensures r.Success? ==> fresh(r.value) && r.value.Length == x.shape[0]
    ensures r.Success? ==> forall b | 0 <= b < r.value.Length ::
      CrossEntropyDefined(x.data[b], y.data[b]) && r.value[b] == CrossEntropy(math, x.data[b], y.data[b])
    ensures CheckShapeEqualTensor(x, y).Pass? && r.Failure? ==> r.error == NotColumnVector || r.error == IndexOutOfRange
  {
    if CheckShapeEqualTensor(x, y).Fail? {
      return Failure(DimensionMismatch);
    }
    var n := x.shape[0];
    var loss := new real[n](_ => 0.0);
    for i := 0 to n
      invariant forall b | 0 <= b < i ::
        CrossEntropyDefined(x.data[b], y.data[b]) && loss[b] == CrossEntropy(math, x.data[b], y.data[b])
    {
      var item := CrossEntropyLossMatrix(math, x.data[i], y.data[i]);
      if item.Failure? {
        return Failure(item.error);
      }
      loss[i] := item.value;
    }
    r := Success(loss);
  }

  /** The loss of scores [2, 0] against the one-hot target [0, 1]: the target index is 1
      and the exp-sum is e^2 alone. */
  lemma TwoClassExample(math: MathLib)
    ensures TargetIndex([0.0, 1.0]) == 1
    ensures NonTargetExpSum(math, [2.0, 0.0], [0.0, 1.0]) == math.exp(2.0)
  {
    var xs, ys := [2.0, 0.0], [0.0, 1.0];
    assert xs[..1] == [2.0] && ys[..1] == [0.0];
    assert NonTargetExpSum(math, [2.0], [0.0]) == math.exp(2.0) by {
      assert [2.0][..0] == [] && [0.0][..0] == [];
      assert NonTargetExpSum(math, [], []) == 0.0;
    }
    assert NonTargetExpSum(math, xs, ys) == NonTargetExpSum(math, [2.0], [0.0]) + 0.0;
  }

  /** A matrix pair holding the two-class example has loss 2 when log inverts exp at 2. */
  lemma TwoClassLoss(math: MathLib, x: Matrix, y: Matrix)
    requires math.log(math.exp(2.0)) == 2.0
    requires CrossEntropyDefined(x, y) && x.data.Length0 == 2
    requires Column(x.data) == [2.0, 0.0] && Column(y.data)[..2] == [0.0, 1.0]
    ensures CrossEntropy(math, x, y) == 2.0
  {
    TwoClassExample(math);
  }

  /** The tensors of the example below: one slot each, scores [2, 0] and target [0, 1]. */
  method TwoClassTensors() returns (x: Tensor, y: Tensor)
    ensures x.Valid() && y.Valid() && x.shape == y.shape == [1, 2, 1]
    ensures CrossEntropyDefined(x.data[0], y.data[0]) && x.data[0].data.Length0 == 2
    ensures Column(x.data[0].data) == [2.0, 0.0] && Column(y.data[0].data)[..2] == [0.0, 1.0]
  {
    x := new Tensor(1, 2, 1);
    y := new Tensor(1, 2, 1);
    var mx, my := x.data[0], y.data[0];
    var _ := mx.Set(0, 0, 2.0);
    var _ := my.Set(1, 0, 1.0);
    assert mx.data[0, 0] == 2.0 && mx.data[1, 0] == 0.0;
    assert my.data[0, 0] == 0.0 && my.data[1, 0] == 1.0;
    assert Column(mx.data) == [2.0, 0.0];
    assert Column(my.data)[..2] == [0.0, 1.0];
  }

  /** One sample with scores [2, 0] whose target is class 1: its loss is
      log(e^2) - 0 = 2, yet the Tensor overload as written reports 0. */
  method DiscardedCrossEntropy(math: MathLib) returns (asWritten: Result<array<real>>, intended: Result<array<real>>)
    requires math.log(math.exp(2.0)) == 2.0
    ensures asWritten.Success? && asWritten.value[..] == [0.0]
    ensures intended.Success? && intended.value[..] == [2.0]
  {
    var x, y := TwoClassTensors();
    TwoClassLoss(math, x.data[0], y.data[0]);
    asWritten := CrossEntropyLossTensor(math, x, y);
    assert asWritten.value.Length == 1 && asWritten.value[0] == 0.0;
    intended := CrossEntropyLossTensorStored(math, x, y);
    assert intended.value.Length == 1 && intended.value[0] == 2.0;
  }
}
