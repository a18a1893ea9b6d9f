/** One mini-batch: the input and output tensors, held by reference (NEA/Utils/Data/Batch.cs). */
module Batches {
  import opened Tensors

  /** `Batch(input, output)`: a value pairing the two tensors it is given. */
  datatype Batch = Batch(input: Tensor, output: Tensor) {

    /** `BatchSize`: the declared batch size of the input tensor; the output plays no part. */
    function BatchSize(): (n: int)
      requires input.Valid()
      reads input
      ensures n == input.data.Length
    {
      input.shape[0]
    }
  }

  /** The constructor pairs any two tensors: nothing relates the output's batch size to the
      input's, so a batch whose output holds a different number of samples is accepted. */
  method MismatchedBatch() returns (b: Batch)
    ensures b.input.Valid() && b.output.Valid()
    ensures b.BatchSize() == 2 && b.output.shape[0] == 3
  {
    var input := new Tensor(2, 4, 1);
    var output := new Tensor(3, 3, 1);
    b := Batch(input, output);
  }
}
