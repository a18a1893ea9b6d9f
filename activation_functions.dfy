/** The activation functions (NEA/NeuralNetwork/ActivationFunctions/ActivationFunctions.cs):
    each Matrix overload overwrites every cell of its argument in place and returns the same
    object; each Tensor overload does that to every batch slot in turn. */
module ActivationFunctions {
  import opened Wrappers
  import opened Numerics
  import opened Matrices
  import opened Tensors

  /** `1 / (1 + e^-v)`, which lies strictly between 0 and 1 because e^-v is positive. */
  function SigmoidOf(math: MathLib, v: real): (r: real)
    ensures 0.0 < r < 1.0
  {
    1.0 / (1.0 + math.exp(-v))
  }

  /** `MathF.Max(0, v)`. */
  function ReluOf(v: real): (r: real)
    ensures r >= 0.0
    ensures v >= 0.0 ==> r == v
    ensures v < 0.0 ==> r == 0.0
  {
    if 0.0 >= v then 0.0 else v
  }

  /** The sum of e^v over a row. */
  function RowExpSum(math: MathLib, row: seq<real>): (s: real)
    ensures s >= 0.0
    ensures |row| > 0 ==> s > 0.0
  {
    if |row| == 0 then 0.0 else RowExpSum(math, row[..|row| - 1]) + math.exp(row[|row| - 1])
  }

  /** The Softmax denominator: the sum of e^v over every cell of the whole matrix. It is
      positive as soon as some row has a cell. */
  function ExpTotal(math: MathLib, g: Grid): (s: real)
    ensures s >= 0.0
    ensures (exists i | 0 <= i < |g| :: |g[i]| > 0) ==> s > 0.0
  {
    if |g| == 0 then 0.0
    else
      var s := ExpTotal(math, g[..|g| - 1]) + RowExpSum(math, g[|g| - 1]);
      assert forall i | 0 <= i < |g| - 1 :: g[..|g| - 1][i] == g[i];
      s
  }

  /** The four activation functions. */
  datatype Activation = SigmoidFn | ReLUFn | TanhFn | SoftmaxFn

  /** The value an activation writes into a cell that held v, where total is the Softmax
      denominator of the cell's matrix taken before any cell was overwritten (it is positive
      whenever the matrix has a cell; the last case only serves an empty matrix, which has
      no cell to write). */
  function Activated(act: Activation, math: MathLib, v: real, total: real): (r: real)
  {
    match act
    case SigmoidFn => SigmoidOf(math, v)
    case ReLUFn => ReluOf(v)
    case TanhFn => math.tanh(v)
    case SoftmaxFn => if total > 0.0 then math.exp(v) / total else 0.0
  }

  /** What an activation leaves in a matrix that held g: the same shape, and each cell
      computed from that cell's old value alone (and, for Softmax, from the whole-matrix total
      taken beforehand), so the order of the updates does not matter. */
  function Activate(act: Activation, math: MathLib, g: Grid): (h: Grid)
    ensures |h| == |g| && forall i | 0 <= i < |g| :: |h[i]| == |g[i]|
    ensures forall i, j | 0 <= i < |g| && 0 <= j < |g[i]| ::
      h[i][j] == Activated(act, math, g[i][j], ExpTotal(math, g))
  {
    var total := ExpTotal(math, g);
    seq(|g|, i requires 0 <= i < |g| => seq(|g[i]|, j requires 0 <= j < |g[i]| => Activated(act, math, g[i][j], total)))
  }

  /** The nested loops every Matrix overload runs: cell (i, j) becomes f of what it held.
      The shape and the buffer object stay the same. */
  method MapCells(x: Matrix, f: real -> real)
    modifies x.data
    ensures forall i, j | 0 <= i < x.data.Length0 && 0 <= j < x.data.Length1 ::
      x.data[i, j] == f(old(x.data[i, j]))
  {
    var rows, columns := x.data.Length0, x.data.Length1;
    for i := 0 to rows
      invariant forall k, l | 0 <= k < i && 0 <= l < columns :: x.data[k, l] == f(old(x.data[k, l]))
      invariant forall k, l | i <= k < rows && 0 <= l < columns :: x.data[k, l] == old(x.data[k, l])
    {
      for j := 0 to columns
        invariant forall k, l | 0 <= k < i && 0 <= l < columns :: x.data[k, l] == f(old(x.data[k, l]))
        invariant forall l | 0 <= l < j :: x.data[i, l] == f(old(x.data[i, l]))
        invariant forall k, l | i <= k < rows && 0 <= l < columns && (k > i || l >= j) ::
          x.data[k, l] == old(x.data[k, l])
      {
        x.data[i, j] := f(x.data[i, j]);
      }
    }
  }

  /** `Sigmoid(Matrix)`: every cell v becomes 1 / (1 + e^-v), in place. */
  method Sigmoid(math: MathLib, x: Matrix) returns (r: Matrix)
    modifies x.data
    ensures r == x && x.Shape() == old(x.Shape())
    ensures forall i, j | 0 <= i < x.data.Length0 && 0 <= j < x.data.Length1 ::
      x.data[i, j] == SigmoidOf(math, old(x.data[i, j]))
  {
    MapCells(x, v => SigmoidOf(math, v));
    r := x;
  }

  /** `ReLU(Matrix)`: every cell v becomes max(0, v), in place; afterwards no cell is
      negative, a cell that was not negative is unchanged, so a second application changes
      nothing. */
  method ReLU(x: Matrix) returns (r: Matrix)
    modifies x.data
    ensures r == x && x.Shape() == old(x.Shape())
    ensures forall i, j | 0 <= i < x.data.Length0 && 0 <= j < x.data.Length1 ::
      x.data[i, j] == ReluOf(old(x.data[i, j]))
    ensures forall i, j | 0 <= i < x.data.Length0 && 0 <= j < x.data.Length1 :: x.data[i, j] >= 0.0
    ensures forall i, j | 0 <= i < x.data.Length0 && 0 <= j < x.data.Length1 && old(x.data[i, j]) >= 0.0 ::
      x.data[i, j] == old(x.data[i, j])
  {
    MapCells(x, ReluOf);
    r := x;
  }

  /** Applying ReLU twice leaves the same cells as applying it once. */
  method ReLUTwice(x: Matrix) returns (r: Matrix)
    modifies x.data
    ensures r == x
    ensures forall i, j | 0 <= i < x.data.Length0 && 0 <= j < x.data.Length1 ::
      x.data[i, j] == ReluOf(old(x.data[i, j]))
  {
    var once := ReLU(x);
    r := ReLU(once);
  }

  /** `Tanh(Matrix)`: every cell v becomes tanh(v), in place. */
  method Tanh(math: MathLib, x: Matrix) returns (r: Matrix)
    modifies x.data
    ensures r == x && x.Shape() == old(x.Shape())
    ensures forall i, j | 0 <= i < x.data.Length0 && 0 <= j < x.data.Length1 ::
      x.data[i, j] == math.tanh(old(x.data[i, j]))
  {
    MapCells(x, math.tanh);
    r := x;
  }

  /** `Softmax(Matrix)`: the sum of e^v over the whole matrix (not per row) is taken once,
      before any cell is overwritten; then every cell v becomes e^v / that sum. */
  method Softmax(math: MathLib, x: Matrix) returns (r: Matrix)
    modifies x.data
    ensures r == x && x.Shape() == old(x.Shape())
    ensures var total := old(ExpTotal(math, Cells(x.data)));
      forall i, j | 0 <= i < x.data.Length0 && 0 <= j < x.data.Length1 ::
        total > 0.0 && x.data[i, j] == math.exp(old(x.data[i, j])) / total
  {
    var total := ExpTotal(math, Cells(x.data));
    // a total of zero means the matrix has no cell, so the loops would do nothing
    if total > 0.0 {
      MapCells(x, v => math.exp(v) / total);
    }
    r := x;
  }

  /** The Matrix overload of an activation, chosen by case: the cells become the image of
      their old contents under Activate. */
  method ApplyMatrix(act: Activation, math: MathLib, x: Matrix) returns (r: Matrix)
    modifies x.data
    ensures r == x
    ensures Cells(x.data) == Activate(act, math, old(Cells(x.data)))
  {
    ghost var g := Cells(x.data);
    match act {
      case SigmoidFn => r := Sigmoid(math, x);
      case ReLUFn => r := ReLU(x);
      case TanhFn => r := Tanh(math, x);
      case SoftmaxFn => r := Softmax(math, x);
    }
    ghost var h := Activate(act, math, g);
    forall i | 0 <= i < |g|
      ensures Cells(x.data)[i] == h[i]
    {
      assert forall j | 0 <= j < |g[i]| :: Cells(x.data)[i][j] == h[i][j];
    }
  }

  /** The cell buffers of a tensor's batch slots. */
  ghost function Buffers(x: Tensor): (r: set<array2<real>>)
    reads x, x.data, x.data[..]
  {
    set m | m in x.data[..] :: m.data
  }

  /** The same buffers in slot order. */
  ghost function BufferSeq(x: Tensor): (bufs: seq<array2<real>>)
    reads x, x.data, x.data[..]
    ensures |bufs| == x.data.Length
    ensures forall c | 0 <= c < x.data.Length :: bufs[c] == x.data[c].data && bufs[c] in Buffers(x)
  {
    seq(x.data.Length, c requires 0 <= c < x.data.Length reads x, x.data, x.data[..] => x.data[c].data)
  }

  /** One step of the loop below, `x[b] = F(x[b])`: slot b's matrix is fetched with GetItem,
      transformed in place and stored back with SetItem, so the slot keeps the same object. */
  method ApplySlot(act: Activation, math: MathLib, x: Tensor, b: int)
    requires x.Valid() && 0 <= b < x.data.Length
    modifies x.data, x.data[b].data
    ensures x.Valid() && x.shape == old(x.shape) && x.data[..] == old(x.data[..])
    ensures Cells(x.data[b].data) == Activate(act, math, old(Cells(x.data[b].data)))
  {
    var m := x.GetItem(b).value;
    m := ApplyMatrix(act, math, m);
    var _ := x.SetItem(b, m);
  }

  /** The loop every Tensor overload runs: for each batch slot b below Shape[0], the slot's
      matrix is transformed in place by the Matrix overload, so each slot holds the same
      object as before with its cells transformed once. The slots' buffers, bufs, must be
      pairwise distinct: a buffer shared by two slots would be transformed twice. */
  method ApplyBatches(act: Activation, math: MathLib, x: Tensor, ghost bufs: seq<array2<real>>) returns (r: Tensor)
    requires x.Valid() && |bufs| == x.data.Length
    requires forall c | 0 <= c < |bufs| :: x.data[c].data == bufs[c]
    requires forall c, d | 0 <= c < d < |bufs| :: bufs[c] != bufs[d]
    modifies x.data, bufs
    ensures r == x && x.Valid() && x.shape == old(x.shape) && x.data[..] == old(x.data[..])
    ensures forall b | 0 <= b < x.data.Length ::
      Cells(x.data[b].data) == Activate(act, math, old(Cells(x.data[b].data)))
  {
    var n := x.shape[0];
    ghost var before := seq(|bufs|, c requires 0 <= c < |bufs| reads bufs => Cells(bufs[c]));
    ghost var now := before;
    for b := 0 to n
      invariant x.Valid() && x.shape == old(x.shape) && x.data[..] == old(x.data[..])
      invariant forall c | 0 <= c < n :: x.data[c].data == bufs[c]
      invariant |now| == n && forall c | 0 <= c < n :: Cells(bufs[c]) == now[c]
      invariant forall c | 0 <= c < b :: now[c] == Activate(act, math, before[c])
      invariant forall c | b <= c < n :: now[c] == before[c]
    {
      ApplySlot(act, math, x, b);
      now := now[b := Cells(bufs[b])];
    }
    r := x;
  }

  /** `Sigmoid(Tensor)`: the Matrix overload applied to every batch slot. */
  method SigmoidBatches(math: MathLib, x: Tensor) returns (r: Tensor)
    requires x.Valid() && x.DistinctBuffers()
    modifies x.data, Buffers(x)
    ensures r == x && x.shape == old(x.shape) && x.data[..] == old(x.data[..])
    ensures forall b | 0 <= b < x.data.Length ::
      Cells(x.data[b].data) == Activate(SigmoidFn, math, old(Cells(x.data[b].data)))
  {
    r := ApplyBatches(SigmoidFn, math, x, BufferSeq(x));
  }

  /** `ReLU(Tensor)`: the Matrix overload applied to every batch slot. */
  method ReLUBatches(math: MathLib, x: Tensor) returns (r: Tensor)
    requires x.Valid() && x.DistinctBuffers()
    modifies x.data, Buffers(x)
    ensures r == x && x.shape == old(x.shape) && x.data[..] == old(x.data[..])
    ensures forall b | 0 <= b < x.data.Length ::
      Cells(x.data[b].data) == Activate(ReLUFn, math, old(Cells(x.data[b].data)))
  {
    r := ApplyBatches(ReLUFn, math, x, BufferSeq(x));
  }

  /** `Tanh(Tensor)`: the Matrix overload applied to every batch slot. */
  method TanhBatches(math: MathLib, x: Tensor) returns (r: Tensor)
    requires x.Valid() && x.DistinctBuffers()
    modifies x.data, Buffers(x)
    ensures r == x && x.shape == old(x.shape) && x.data[..] == old(x.data[..])
    ensures forall b | 0 <= b < x.data.Length ::
      Cells(x.data[b].data) == Activate(TanhFn, math, old(Cells(x.data[b].data)))
  {
    r := ApplyBatches(TanhFn, math, x, BufferSeq(x));
  }

  /** `Softmax(Tensor)`: the Matrix overload applied to every batch slot, so each slot is
      normalised by its own whole-matrix total. */
  method SoftmaxBatches(math: MathLib, x: Tensor) returns (r: Tensor)
    requires x.Valid() && x.DistinctBuffers()
    modifies x.data, Buffers(x)
    ensures r == x && x.shape == old(x.shape) && x.data[..] == old(x.data[..])
    ensures forall b | 0 <= b < x.data.Length ::
      Cells(x.data[b].data) == Activate(SoftmaxFn, math, old(Cells(x.data[b].data)))
  {
    r := ApplyBatches(SoftmaxFn, math, x, BufferSeq(x));
  }
}
