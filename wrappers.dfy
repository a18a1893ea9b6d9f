/** Option, Result and Outcome values standing for the nullable cells and the exceptions
    of the modelled library. */
module Wrappers {

  /** A nullable value (`float?` in the library). */
  datatype Option<+T> = None | Some(value: T)

  /** The exceptions the modelled code can raise, named after their message or .NET type. */
  datatype Error =
    | IndexOutOfRange     // an array index outside its bounds
    | ArgumentOutOfRange  // List<T>.RemoveAt with an index outside the list
    | Overflow            // an array allocated with a negative length
    | NotColumnVector     // single-index access into a matrix that is not one column wide
    | UnsuitableIndexing  // "Unsuitable Tensor Indexing"
    | DimensionMismatch   // "Input and target dimensions must be equal."
    | InvalidProbability  // "p value must be between 0 and 1"
    | SampleTooLarge      // "Number of items in sample cannot be larger than dataset"

  /** The value an operation returns, or the exception it throws. */
  datatype Result<+T> = Success(value: T) | Failure(error: Error)

  /** The outcome of an operation that returns nothing: normal return, or an exception. */
  datatype Outcome = Pass | Fail(error: Error)
}
