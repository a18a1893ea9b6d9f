# NEA (deeplearn) in Dafny

A model of the core of the NEA neural-network library, written in C#. It covers:

- the `DataSet` table of nullable floats and its in-place cleaning, shuffling, sampling,
  column and row removal and train/test split;
- the `Matrix` and `Tensor` containers, which hold references to float buffers, and the
  `Batch` pair of tensors;
- the `Linear`, `Dropout` and `Identity` layers and the abstract `Layer` they share;
- the mean-squared-error and cross-entropy loss functions;
- the Sigmoid, ReLU, Tanh and Softmax activation functions, which overwrite their
  argument in place.

Modules follow the library's files:

- `Wrappers`: `Option` for `float?`, and `Result`/`Outcome` carrying an `Error` for the
  exceptions.
- `Numerics`: floats as `real`. `exp`, `log` and `tanh` are function-valued fields of a
  `MathLib` parameter; the only fact given about them is that `exp` is positive. `NaN`
  stands for the quotient 0/0.
- `Matrices`, `Tensors`, `Batches`, `Layers`, `LossFunctions`, `ActivationFunctions`,
  `DataSets`.

Objects the library updates in place are classes:

- `Matrix` holds an `array2<real>`.
- `Tensor` holds an `array<Matrix>`.
- `DataSet` holds rows as `array<array<Option<real>>>`.

Their methods carry `modifies` clauses. Each method's contract ties the new state to a
function of the old state, and lemmas prove properties of those functions:

- `Clean` keeps exactly the complete rows, in order.
- `Shuffle` is the Fisher–Yates composition of swaps and a permutation.
- The two halves of `TrainTestSplit` concatenate back to the table.
- The mean squared error is non-negative, and zero for equal matrices.
- The activations map every cell independently of the update order. Softmax divides by a
  whole-matrix exp-sum taken before the loop.

Randomness is an argument. The indices `rand.Next` draws are passed in as `picks`, with the
range the code fixes. The Gaussian sampler is a function from cell position to value.

Where the code and its own documentation differ, the model follows the code:

- **RandomSample.** On a table of two or more rows it never draws the last row, because
  `rand.Next(0, Count - 1)` excludes `Count - 1`; on a one-row table `Next(0, 0)` yields 0,
  the only row. It may repeat a row, because `selectedItems` is never added to
  (`DataSets.SampleOfTwoRows`). Each sampled row is a clone, so
  `neaTests/Utils/DatasetTests.cs:43` tests by reference for a row that is not one of the
  table's (`DataSets.SampleRowIsACopy`).
- **CrossEntropyLoss(Matrix).** The target index defaults to 0 when no entry of `y` is 1.
- **Softmax(Tensor).** Its documentation (NEA/NeuralNetwork/ActivationFunctions/ActivationFunctions.cs:105)
  says the elements of the whole output tensor sum to 1, but each slot is normalised on its
  own by the Matrix overload, so over the reals a tensor of n non-empty slots sums to n
  (`ActivationFunctions.SoftmaxBatches`).
- **TrainTestSplit.** Its documentation (NEA/Utils/Data/DataSet.cs:233) calls the argument
  the share of test data, but the rows before `Floor(Count * fraction)` become the training
  table, so the argument is the training share, which is how NEA/Utils/Data/DataLoader.cs:24
  documents and passes it.

## Model

| member | source | states |
|---|---|---|
| Matrices.Matrix.constructor | NEA/Tensor/Matrix.cs:13-17 | a fresh rows x columns buffer, all zeros, with shape [rows, columns] |
| Matrices.Matrix.FromArray | NEA/Tensor/Matrix.cs:20-24 | keeps the caller's buffer itself (no copy) and records its dimensions as the shape |
| Matrices.Matrix.Shape | NEA/Tensor/Matrix.cs:9-10 | the assumed `Shape` accessor: two non-negative dimensions, read from the buffer |
| Matrices.Matrix.Get | NEA/NeuralNetwork/LossFunctions.cs:72 | the assumed `[i, j]` read succeeds exactly inside the shape and yields that cell, else IndexOutOfRange |
| Matrices.Matrix.Set | NEA/NeuralNetwork/ActivationFunctions/ActivationFunctions.cs:37 | the assumed `[i, j]` write succeeds exactly inside the shape; a later read returns the value; every other cell is unchanged |
| Matrices.Matrix.GetVector | NEA/NeuralNetwork/LossFunctions.cs:108 | the assumed `[i]` read succeeds exactly on a one-column matrix with i in range; NotColumnVector or IndexOutOfRange otherwise |
| Matrices.Matrix.SetVector | NEA/Tensor/Tensor.cs:40 | the assumed `[i]` write: the same conditions and errors; a later read returns the value; every other cell is unchanged, and a failed write changes no cell |
| Matrices.Matrix.ZeroMatrix | NEA/Tensor/Matrix.cs:27-30 | a fresh zero matrix of shape [rows, columns], as the constructor gives |
| Matrices.Matrix.GaussianMatrix | NEA/Tensor/Matrix.cs:33-44 | a fresh matrix of shape [rows, columns] whose cell (i, j) is the sampler's value for it |
| Tensors.Tensor.constructor | NEA/Tensor/Tensor.cs:10-19 | the normal return: shape [batches, rows, columns] as given (negative rows or columns recorded when there is no slot); each slot a fresh, distinct, zero rows x columns matrix |
| Tensors.Tensor.Create | NEA/Tensor/Tensor.cs:10-19 | throws Overflow exactly when batches is negative, or when there is a slot and rows or columns is negative; otherwise the constructor's tensor |
| Tensors.Tensor.GetIndex | NEA/Tensor/Tensor.cs:25-35 | succeeds exactly when the batch size is 1 and slot 0 is a column vector containing idx; yields entry idx; UnsuitableIndexing when the batch size is not 1 |
| Tensors.Tensor.SetIndex | NEA/Tensor/Tensor.cs:36-46 | the same conditions; UnsuitableIndexing when the batch size is not 1, else NotColumnVector or IndexOutOfRange; a later read returns the value; no other cell of slot 0 changes, and a failed write changes none |
| Tensors.Tensor.GetCell | NEA/Tensor/Tensor.cs:51-61 | succeeds exactly when the batch size is 1 and (row, col) is inside slot 0; yields that cell; UnsuitableIndexing when the batch size is not 1 |
| Tensors.Tensor.SetCell | NEA/Tensor/Tensor.cs:62-72 | the same conditions and errors (UnsuitableIndexing when the batch size is not 1, else IndexOutOfRange); a later read returns the value; no other cell of slot 0 changes |
| Tensors.Tensor.GetBatchCell | NEA/Tensor/Tensor.cs:77-80 | succeeds exactly when batch is a slot and (row, col) is inside its matrix; yields that cell, else IndexOutOfRange |
| Tensors.Tensor.SetBatchCell | NEA/Tensor/Tensor.cs:81-84 | the same conditions; a later read returns the value; no other cell of that matrix changes |
| Tensors.Tensor.GetItem | NEA/Tensor/Tensor.cs:88-91 | the matrix object in the slot itself, exactly for an index in range, else IndexOutOfRange |
| Tensors.Tensor.SetItem | NEA/Tensor/Tensor.cs:93-96 | replaces only that slot (any shape accepted); shape and other slots unchanged; out of range fails and changes nothing |
| Tensors.SetThenGetItem | NEA/Tensor/Tensor.cs:88-96 | GetItem after SetItem returns the very object stored |
| Tensors.WriteThroughGetItem | NEA/Tensor/Tensor.cs:88-91 | a cell written through the reference GetItem returns is what the tensor then reads |
| Batches.Batch.BatchSize | NEA/Utils/Data/Batch.cs:34 | the batch size is the input tensor's slot count (its Shape[0]) |
| Batches.MismatchedBatch | NEA/Utils/Data/Batch.cs:15-19 | input and output are stored as given, and batch sizes 2 and 3 are accepted together |
| Layers.Linear.InitialParameters | NEA/NeuralNetwork/Layers/Linear.cs:42-43 | a fresh OutputSize x InputSize weight holding the sampled values and a fresh OutputSize x 1 zero bias |
| Layers.Linear.constructor | NEA/NeuralNetwork/Layers/Linear.cs:20-24 | stores both sizes as given, then establishes the parameter shapes and the zero bias |
| Layers.Linear.ResetParameters | NEA/NeuralNetwork/Layers/Linear.cs:40-44 | replaces only weight and bias by fresh ones of shapes [OutputSize, InputSize] and [OutputSize, 1], the bias all zeros |
| Layers.Linear.Forward | NEA/NeuralNetwork/Layers/Linear.cs:32-35 | ignores its input; a fresh 1 x 1 x 1 tensor holding 0 |
| Layers.Dropout.Store | NEA/NeuralNetwork/Layers/Dropout.cs:20-22 | stores p, and InputSize = OutputSize = the argument |
| Layers.Dropout.Create | NEA/NeuralNetwork/Layers/Dropout.cs:14-23 | as written: throws exactly when 0 < p < 1; otherwise a fresh layer storing p and both sizes |
| Layers.Dropout.CreateChecked | NEA/NeuralNetwork/Layers/Dropout.cs:16-19 | as intended: throws exactly when p lies outside [0, 1] |
| Layers.IrisDropout | iris-dataset-test/Model.cs:17 | the p = 0.3 the iris model passes is rejected as written and accepted as intended |
| Layers.Dropout.Forward | NEA/NeuralNetwork/Layers/Dropout.cs:25-28 | returns the argument itself and modifies nothing |
| Layers.Identity.constructor | NEA/NeuralNetwork/Layers/Identity.cs:13-17 | InputSize = OutputSize = the argument, with no validation |
| Layers.Identity.Forward | NEA/NeuralNetwork/Layers/Identity.cs:23-26 | returns the argument itself and modifies nothing |
| Layers.Layer.InputSize | NEA/NeuralNetwork/Layers/Layer.cs:13 | the input size stored by whichever of the three layers it is |
| Layers.Layer.OutputSize | NEA/NeuralNetwork/Layers/Layer.cs:17 | the output size stored by whichever of the three layers it is |
| Layers.IdentityLayerSizes | NEA/NeuralNetwork/Layers/Identity.cs:13-17 | an Identity layer built for n reports n as both its input and its output size |
| Layers.DropoutLayerSizes | NEA/NeuralNetwork/Layers/Dropout.cs:14-23 | a Dropout layer is built exactly when p is not strictly between 0 and 1, and then reports n as both sizes |
| Layers.Layer.Forward | NEA/NeuralNetwork/Layers/Layer.cs:24 | dispatch: the pass-through layers return x, Linear a fresh 1 x 1 x 1 tensor holding 0 |
| ActivationFunctions.SigmoidOf | NEA/NeuralNetwork/ActivationFunctions/ActivationFunctions.cs:37 | 1 / (1 + e^-v) lies strictly between 0 and 1 |
| ActivationFunctions.ReluOf | NEA/NeuralNetwork/ActivationFunctions/ActivationFunctions.cs:68 | max(0, v): never negative, v itself when v >= 0, 0 when v < 0 |
| ActivationFunctions.RowExpSum | NEA/NeuralNetwork/ActivationFunctions/ActivationFunctions.cs:126 | the exp-sum of a row is non-negative and positive for a non-empty row |
| ActivationFunctions.ExpTotal | NEA/NeuralNetwork/ActivationFunctions/ActivationFunctions.cs:126 | the whole-matrix exp-sum is non-negative and positive once any row has a cell |
| ActivationFunctions.MapCells | NEA/NeuralNetwork/ActivationFunctions/ActivationFunctions.cs:33-39 | the nested loops leave every cell equal to f of its old value |
| ActivationFunctions.Sigmoid | NEA/NeuralNetwork/ActivationFunctions/ActivationFunctions.cs:31-41 | the same object and shape; every cell is 1 / (1 + e^-old) |
| ActivationFunctions.ReLU | NEA/NeuralNetwork/ActivationFunctions/ActivationFunctions.cs:62-72 | the same object and shape; every cell is max(0, old), so no cell is negative and non-negative cells are unchanged |
| ActivationFunctions.ReLUTwice | NEA/NeuralNetwork/ActivationFunctions/ActivationFunctions.cs:62-72 | a second ReLU changes nothing: two applications equal one |
| ActivationFunctions.Tanh | NEA/NeuralNetwork/ActivationFunctions/ActivationFunctions.cs:93-103 | the same object and shape; every cell is tanh(old) |
| ActivationFunctions.Softmax | NEA/NeuralNetwork/ActivationFunctions/ActivationFunctions.cs:123-135 | every cell is e^old divided by the positive exp-sum of the whole old matrix |
| ActivationFunctions.ApplyMatrix | NEA/NeuralNetwork/ActivationFunctions/ActivationFunctions.cs:123-135 | for each activation, each new cell is a function of its own old cell and (for Softmax) of the fixed total, so update order does not matter |
| ActivationFunctions.ApplySlot | NEA/NeuralNetwork/ActivationFunctions/ActivationFunctions.cs:21 | `x[b] = F(x[b])` transforms slot b's cells and keeps the same object in the slot |
| ActivationFunctions.ApplyBatches | NEA/NeuralNetwork/ActivationFunctions/ActivationFunctions.cs:17-24 | every slot below Shape[0] is transformed exactly once; the tensor, its shape and its slot objects stay the same |
| ActivationFunctions.SigmoidBatches | NEA/NeuralNetwork/ActivationFunctions/ActivationFunctions.cs:17-24 | the same tensor, each slot's cells mapped by Sigmoid |
| ActivationFunctions.ReLUBatches | NEA/NeuralNetwork/ActivationFunctions/ActivationFunctions.cs:48-55 | the same tensor, each slot's cells mapped by ReLU |
| ActivationFunctions.TanhBatches | NEA/NeuralNetwork/ActivationFunctions/ActivationFunctions.cs:79-86 | the same tensor, each slot's cells mapped by Tanh |
| ActivationFunctions.SoftmaxBatches | NEA/NeuralNetwork/ActivationFunctions/ActivationFunctions.cs:110-117 | the same tensor, each slot normalised by its own whole-matrix exp-sum |
| LossFunctions.CheckShapeEqualTensor | NEA/NeuralNetwork/LossFunctions.cs:15-25 | passes exactly when the two Shape sequences agree entry by entry, else DimensionMismatch |
| LossFunctions.CheckShapeEqualMatrix | NEA/NeuralNetwork/LossFunctions.cs:28-38 | passes exactly when rows and columns both agree, else DimensionMismatch |
| LossFunctions.RowSquaredErrorNonNegative | NEA/NeuralNetwork/LossFunctions.cs:70-73 | a row's sum of squared differences is never negative |
| LossFunctions.SquaredErrorNonNegative | NEA/NeuralNetwork/LossFunctions.cs:68-74 | the accumulated squared error over the rows is never negative |
| LossFunctions.RowSquaredErrorOfEqual | NEA/NeuralNetwork/LossFunctions.cs:70-73 | a row against itself has squared error 0 |
| LossFunctions.SquaredErrorOfEqual | NEA/NeuralNetwork/LossFunctions.cs:68-74 | a matrix against itself has squared error 0 |
| LossFunctions.MeanSquaredErrorBounds | NEA/NeuralNetwork/LossFunctions.cs:63-77 | on a non-empty matrix the MSE is a number, at least 0, and 0 when x equals y |
| LossFunctions.MSELossMatrix | NEA/NeuralNetwork/LossFunctions.cs:63-77 | DimensionMismatch when the shapes differ; otherwise the sum of (x - y)^2 over all cells divided by rows * columns (NaN for no cell) |
| LossFunctions.MSELossTensor | NEA/NeuralNetwork/LossFunctions.cs:46-55 | DimensionMismatch on differing shapes; succeeds exactly when every slot pair has equal shapes; a fresh array of length Shape[0] whose entry b is slot b's MSE |
| LossFunctions.TargetIndex | NEA/NeuralNetwork/LossFunctions.cs:106-116 | the last index with y = 1, or 0 when there is none (an index in range for non-empty y) |
| LossFunctions.NonTargetExpSumPositive | NEA/NeuralNetwork/LossFunctions.cs:106-117 | the exp-sum over non-target entries is non-negative, and positive exactly when some y entry is not 1 |
| LossFunctions.CrossEntropyLossMatrix | NEA/NeuralNetwork/LossFunctions.cs:102-120 | succeeds exactly when x is a non-empty column vector and y a column vector at least as long (shapes are not compared); then the result is log(exp-sum over non-targets) - x[target] |
| LossFunctions.CrossEntropyLossTensor | NEA/NeuralNetwork/LossFunctions.cs:85-94 | as written: DimensionMismatch on differing shapes; fails exactly when some slot's Matrix call fails, with NotColumnVector or IndexOutOfRange; otherwise a fresh array of Shape[0] zeros |
| LossFunctions.CrossEntropyLossTensorStored | NEA/NeuralNetwork/LossFunctions.cs:85-94 | as intended: the same failures; entry b is slot b's cross-entropy loss |
| LossFunctions.TwoClassExample | NEA/NeuralNetwork/LossFunctions.cs:106-116 | for y = [0, 1] the target is 1 and the exp-sum over scores [2, 0] is e^2 |
| LossFunctions.TwoClassLoss | NEA/NeuralNetwork/LossFunctions.cs:102-120 | scores [2, 0] against target [0, 1] have loss 2 when log(e^2) = 2 |
| LossFunctions.DiscardedCrossEntropy | NEA/NeuralNetwork/LossFunctions.cs:91 | on that one-slot example the Tensor overload as written returns [0], and as intended [2] |
| DataSets.RemovedAt | NEA/Utils/Data/DataSet.cs:213 | `List.RemoveAt(k)`: one shorter, elements before k kept, elements after k shifted down by one |
| DataSets.KeepComplete | NEA/Utils/Data/DataSet.cs:149 | the kept rows are rows of the table, all complete, and every complete row is kept |
| DataSets.IncompleteCount | NEA/Utils/Data/DataSet.cs:149 | the number of rows holding a null, which `RemoveAll` reports, is at most the number of rows |
| DataSets.KeepCompleteCount | NEA/Utils/Data/DataSet.cs:149 | kept rows plus removed rows make up all the rows |
| DataSets.KeepAllComplete | NEA/Utils/Data/DataSet.cs:149 | a table of complete rows is kept whole, in order |
| DataSets.KeepCompleteIdempotent | NEA/Utils/Data/DataSet.cs:144-155 | cleaning a cleaned table changes nothing |
| DataSets.Swap | NEA/Utils/Data/DataSet.cs:169-171 | the two entries exchanged, every other entry unchanged |
| DataSets.FisherYates | NEA/Utils/Data/DataSet.cs:166-172 | the composed swaps keep the length |
| DataSets.FisherYatesPermutes | NEA/Utils/Data/DataSet.cs:160-173 | the shuffle is a permutation: the multiset of rows is unchanged |
| DataSets.FisherYatesKeepsTail | NEA/Utils/Data/DataSet.cs:166-172 | the steps below hi never touch the entries from hi on |
| DataSets.Take | NEA/Utils/Data/DataSet.cs:239 | the first n rows, with n clamped to [0, Count] |
| DataSets.Skip | NEA/Utils/Data/DataSet.cs:240 | the rows after the first n, with the same clamping |
| DataSets.TakeSkip | NEA/Utils/Data/DataSet.cs:239-240 | Take and Skip at the same point concatenate to the whole sequence |
| DataSets.DataSet.Empty | NEA/Utils/Data/DataSet.cs:32-35 | a fresh table with no rows |
| DataSets.DataSet.FromRows | NEA/Utils/Data/DataSet.cs:53-56 | keeps the caller's array itself |
| DataSets.DataSet.Count | NEA/Utils/Data/DataSet.cs:16 | the number of rows |
| DataSets.DataSet.Features | NEA/Utils/Data/DataSet.cs:21 | the length of row 0; IndexOutOfRange on an empty table |
| DataSets.DataSet.GetCell | NEA/Utils/Data/DataSet.cs:67 | succeeds exactly inside the jagged bounds and yields that cell, else IndexOutOfRange |
| DataSets.DataSet.SetCell | NEA/Utils/Data/DataSet.cs:68 | the same bounds; a later read returns the value; only that cell of that row object changes |
| DataSets.DataSet.GetRow | NEA/Utils/Data/DataSet.cs:78 | the row object itself, exactly for an index in range |
| DataSets.DataSet.SetRow | NEA/Utils/Data/DataSet.cs:79 | replaces only that slot with the given row object (length unchecked) |
| DataSets.DataSet.Clean | NEA/Utils/Data/DataSet.cs:144-155 | the table becomes the complete rows in their original order; returns the number removed = old Count - new Count; no null remains |
| DataSets.DataSet.Shuffle | NEA/Utils/Data/DataSet.cs:160-173 | the rows become the Fisher–Yates composition of the drawn swaps, a permutation of the old rows |
| DataSets.DataSet.RandomSample | NEA/Utils/Data/DataSet.cs:180-201 | SampleTooLarge when nItems > Count, Overflow when negative; otherwise a fresh array of nItems fresh copies of the drawn rows |
| DataSets.SampleOfTwoRows | NEA/Utils/Data/DataSet.cs:192 | from two rows, both sampled rows are copies of row 0 |
| DataSets.SampleRowIsACopy | NEA/Utils/Data/DataSet.cs:198 | a sampled row equals its source row cell by cell but is not one of the table's row objects |
| DataSets.FirstShort | NEA/Utils/Data/DataSet.cs:209-215 | the first row lacking column index (or Count): every earlier row has it |
| DataSets.DataSet.RemoveFeature | NEA/Utils/Data/DataSet.cs:207-216 | each row in order becomes a fresh row without that cell; at the first row too short it throws ArgumentOutOfRange, leaving the earlier rows replaced and the rest untouched |
| DataSets.DataSet.RemoveElementAt | NEA/Utils/Data/DataSet.cs:222-228 | a fresh table without exactly that row, others in order; an index out of range throws and changes nothing |
| DataSets.SplitPoint | NEA/Utils/Data/DataSet.cs:237 | Floor(Count * fraction) over the reals: the integer p with p <= Count * fraction < p + 1 (the `int` cast out of range is left out) |
| DataSets.DataSet.TrainTestSplit | NEA/Utils/Data/DataSet.cs:235-242 | two fresh tables, the rows before the split point and the rows from it on; together they are the table, which is not changed |
| DataSets.DataSet.ToArray | NEA/Utils/Data/DataSet.cs:248-251 | the table's own array, not a copy |

## Left out

- `DataSet.LoadData` and the path constructor: file reading and `float.TryParse` are I/O and library parsing.
- Random number generation: `Random.Next` draws and the Marsaglia-polar sampler become arguments. The sampler's `u2 = 2*u2 - 2` slip is therefore outside the model.
- IEEE float semantics: floats are reals. Rounding, overflow to infinity, and infinities are not modelled: `MathF.Log(0)` is minus infinity, so when every entry of `y` is 1 the cross-entropy is minus infinity minus `x[target]` (NEA/NeuralNetwork/LossFunctions.cs:117-118), and the model only gives `log` an unconstrained value at 0. Exp underflow is not modelled either, because `exp` is positive over the reals: in floats `MathF.Exp` is 0 below about -104, so a matrix whose every cell is that small (a 1 x 1 matrix holding -200, say) has Softmax sum 0 and gets 0/0 = NaN in every cell (NEA/NeuralNetwork/ActivationFunctions/ActivationFunctions.cs:126-131). Only the MSE's 0/0 on an empty matrix is modelled.
- Matrices.Matrix.constructor: takes `nat` rows and columns, the only sizes for which it returns normally; a negative size throws OverflowException while .NET allocates the array, and that throw is not modelled.
- Matrices.Matrix.ZeroMatrix: takes `nat` sizes for the same reason.
- Matrices.Matrix.GaussianMatrix: takes `nat` sizes for the same reason. Mean and standard deviation are not parameters, so Linear's standard deviation 1/sqrt(InputSize) is not modelled.
- Layers.Linear.constructor: takes `nat` sizes for the same reason, since its parameter matrices are allocated with them.
- Tensors.Tensor.constructor: requires no slot or non-negative rows and columns, the cases in which it returns normally; the throwing cases are stated by `Tensors.Tensor.Create`, and `batches` is a `nat` there because a negative count throws before anything is allocated.
- Matrix accessors: `Shape`, `[i, j]` and `[i]` are used by the callers but not declared in Matrix.cs, nor is Matrix declared enumerable, which Softmax's `x.Cast<float>()` (NEA/NeuralNetwork/ActivationFunctions/ActivationFunctions.cs:126) needs. They are modelled as reads and writes of `data`, with `[i]` restricted to one-column matrices, and the enumeration as the sum over every cell of `data`.
- DataSets.SplitPoint: the split point is the exact floor of the real product `Count * fraction`. The C# `(int)` cast of a product outside the `int` range (for example Count = 1 and fraction = 3e9) gives a runtime-dependent value instead, which is not modelled.
- Null references: every Dafny reference here is non-null, so a null row passed to `new DataSet(float?[][])` or stored by `this[index] = value`, a null Matrix stored into a Tensor slot, and a null `float[,]` passed to `new Matrix` (and the NullReferenceException each would later raise) are not modelled.
- Tensor `this[int]` is declared float-valued, so the activation and loss Tensor overloads' `x[i] = F(x[i])` and `MSELoss(x[i], y[i])` do not type-check as written. The per-slot step is modelled as `GetItem`/`SetItem` on slot i.
- LossFunctions.CrossEntropyLossMatrix: a failure is stated as NotColumnVector or IndexOutOfRange without saying which. Which one is thrown depends on which read fails first, and that depends on the entries of `y`; the Tensor overloads inherit this.
- ActivationFunctions.ApplyBatches: requires that the slots' cell buffers are pairwise distinct; a Matrix stored by `SetItem` in two slots would be transformed twice, once per slot, which the model does not capture.
- ActivationFunctions.SigmoidBatches: requires that no two slots share a cell buffer; a buffer shared by two slots would be transformed twice, which is not modelled.
- ActivationFunctions.ReLUBatches: requires distinct slot buffers, for the same reason.
- ActivationFunctions.TanhBatches: requires distinct slot buffers, for the same reason.
- ActivationFunctions.SoftmaxBatches: requires distinct slot buffers, for the same reason.
- ActivationFunctions.Softmax: an empty matrix has exp-sum 0 and no cell to write; the model's per-cell value for that case (0) is never stored.
- Softmax summing to 1: over the reals it follows from the positive whole-matrix exp-sum the model has, but no lemma states it; in floats it holds only within rounding. ActivationFunctions.SigmoidOf: the open range (0, 1) holds for reals; in floats `1 / (1 + e^-v)` rounds to exactly 1 for large v and to exactly 0 for very negative v (where e^-v overflows to infinity), which is not modelled.
- `NEA/Utils/Data/DataLoader.cs` is not part of this model: its batch helper has no return statement.
- Matrix Add, Reshape, Transpose, Transform, Dot and Equals are referenced by the tests and the demo program but defined nowhere, so they are not modelled. `ToString` only returns the base object string.
- The demo programs and model drivers (console I/O, timing, hard-coded paths) and the `IModule` interface are not modelled; `Layer` is a datatype over the three variants.

## Findings

| source | as written | input that shows it | evidently intended | confidence | as-written member | corrected member |
|---|---|---|---|---|---|---|
| NEA/NeuralNetwork/Layers/Dropout.cs:16-19 | throws when 0 < p < 1, that is for every valid probability strictly inside the range | `new Dropout(3, 0.3f)`, as at iris-dataset-test/Model.cs:17 | throw when p is outside [0, 1] | high, not executed | Layers.Dropout.Create (shown by Layers.IrisDropout) | Layers.Dropout.CreateChecked |
| NEA/NeuralNetwork/LossFunctions.cs:91 | the per-slot result of `CrossEntropyLoss(x[i], y[i])` is discarded, so the returned array is all zeros | one slot with scores [2, 0] and target [0, 1], whose loss is 2 | store the result in `loss[i]`, as `MSELoss(Tensor)` does at line 52 | high, not executed | LossFunctions.CrossEntropyLossTensor (shown by LossFunctions.DiscardedCrossEntropy) | LossFunctions.CrossEntropyLossTensorStored |
