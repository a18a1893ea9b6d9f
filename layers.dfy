/** The layer family (NEA/NeuralNetwork/Layers): Linear, Dropout and Identity, each with
    the InputSize and OutputSize set at construction and a Forward operation. */
module Layers {
  import opened Wrappers
  import opened Matrices
  import opened Tensors

  /** A fully connected layer whose Forward is still a placeholder. */
  class Linear {
    var inputSize: nat
    var outputSize: nat
    var weight: Matrix
    var bias: Matrix

    /** The parameters ResetParameters establishes: an OutputSize x InputSize weight and an
        OutputSize x 1 bias of zeros. */
    ghost predicate Valid()
      reads this, weight, bias, bias.data
    {
      && weight.Valid() && weight.Shape() == [outputSize, inputSize]
      && bias.Valid() && bias.Shape() == [outputSize, 1]
      && forall i | 0 <= i < outputSize :: bias.data[i, 0] == 0.0
    }

    /** The weight drawn by the sampler and the zero bias, both freshly allocated. */
    static method InitialParameters(inputSize: nat, outputSize: nat, sample: (int, int) -> real)
      returns (weight: Matrix, bias: Matrix)
      ensures fresh(weight) && fresh(weight.data) && fresh(bias) && fresh(bias.data)
      ensures weight.Valid() && weight.Shape() == [outputSize, inputSize]
      ensures forall i, j | 0 <= i < outputSize && 0 <= j < inputSize :: weight.data[i, j] == sample(i, j)
      ensures bias.Valid() && bias.Shape() == [outputSize, 1]
      ensures forall i | 0 <= i < outputSize :: bias.data[i, 0] == 0.0
    {
      weight := Matrix.GaussianMatrix(outputSize, inputSize, sample);
      bias := Matrix.ZeroMatrix(outputSize, 1);
    }

    /** `new Linear(InputSize, OutputSize)`: stores the sizes, then initialises the parameters
        as ResetParameters does. */
    constructor (inputSize: nat, outputSize: nat, sample: (int, int) -> real)
      ensures this.inputSize == inputSize && this.outputSize == outputSize
      ensures Valid()
      ensures fresh(weight) && fresh(weight.data) && fresh(bias) && fresh(bias.data)
      ensures forall i, j | 0 <= i < outputSize && 0 <= j < inputSize :: weight.data[i, j] == sample(i, j)
    {
      this.inputSize := inputSize;
      this.outputSize := outputSize;
      var w, b := InitialParameters(inputSize, outputSize, sample);
      weight, bias := w, b;
    }

    /** `ResetParameters()`: replaces weight and bias by fresh ones of the same shapes; the
        sizes are left as they are. */
    method ResetParameters(sample: (int, int) -> real)
      modifies this`weight, this`bias
      ensures Valid()
      ensures fresh(weight) && fresh(weight.data) && fresh(bias) && fresh(bias.data)
      ensures forall i, j | 0 <= i < outputSize && 0 <= j < inputSize :: weight.data[i, j] == sample(i, j)
    {
      weight, bias := InitialParameters(inputSize, outputSize, sample);
    }

    /** `Forward(x)`: ignores x and returns a fresh 1 x 1 x 1 tensor holding 0. */
    method Forward(x: Tensor) returns (r: Tensor)
      ensures fresh(r) && r.Valid() && r.shape == [1, 1, 1]
      ensures r.GetBatchCell(0, 0, 0) == Success(0.0)
    {
      r := new Tensor(1, 1, 1);
    }
  }

  /** A dropout layer whose Forward is still a pass-through. */
  class Dropout {
    var inputSize: int
    var outputSize: int
    var p: real

    /** The assignments the constructor makes once its check has passed. */
    constructor Store(inputSize: int, p: real)
      ensures this.inputSize == inputSize && this.outputSize == inputSize && this.p == p
    {
      this.p := p;
      this.inputSize := inputSize;
      this.outputSize := inputSize;
    }

    /** `new Dropout(InputSize, p)` as written: throws exactly when 0 < p < 1, and otherwise
        stores p with InputSize = OutputSize = the given size. */
    static method Create(inputSize: int, p: real) returns (r: Result<Dropout>)
      ensures r.Failure? <==> 0.0 < p < 1.0
      ensures r.Failure? ==> r.error == InvalidProbability
      ensures r.Success? ==> fresh(r.value)
      ensures r.Success? ==> r.value.p == p && r.value.inputSize == inputSize && r.value.outputSize == inputSize
    {
      if 0.0 < p && p < 1.0 {
        return Failure(InvalidProbability);
      }
      var d := new Dropout.Store(inputSize, p);
      r := Success(d);
    }

    /** The check as evidently intended: reject exactly a p outside [0, 1]. */
    static method CreateChecked(inputSize: int, p: real) returns (r: Result<Dropout>)
      ensures r.Failure? <==> !(0.0 <= p <= 1.0)
      ensures r.Failure? ==> r.error == InvalidProbability
      ensures r.Success? ==> fresh(r.value)
      ensures r.Success? ==> r.value.p == p && r.value.inputSize == inputSize && r.value.outputSize == inputSize
    {
      if p < 0.0 || p > 1.0 {
        return Failure(InvalidProbability);
      }
      var d := new Dropout.Store(inputSize, p);
      r := Success(d);
    }

    /** `Forward(x)`: returns the argument itself; no tensor and no field changes. */
    method Forward(x: Tensor) returns (r: Tensor)
      ensures r == x
    {
      r := x;
    }
  }

  /** The probability 0.3 that the iris model passes is in range, yet the check as written
      rejects it, while the intended check accepts it. */
  method IrisDropout() returns (asWritten: Result<Dropout>, intended: Result<Dropout>)
    ensures asWritten == Failure(InvalidProbability)
    ensures intended.Success? && intended.value.p == 0.3
  {
    asWritten := Dropout.Create(3, 0.3);
    intended := Dropout.CreateChecked(3, 0.3);
  }

  /** A placeholder pass-through layer. */
  class Identity {
    var inputSize: int
    var outputSize: int

    /** `new Identity(InputSize)`: both sizes are the argument; nothing is validated. */
    constructor (inputSize: int)
      ensures this.inputSize == inputSize && this.outputSize == inputSize
    {
      this.inputSize := inputSize;
      this.outputSize := inputSize;
    }

    /** `Forward(x)`: returns the argument itself; no tensor and no field changes. */
    method Forward(x: Tensor) returns (r: Tensor)
      ensures r == x
    {
      r := x;
    }
  }

  /** The abstract Layer: one of the three variants, dispatched by case. */
  datatype Layer = LinearLayer(linear: Linear) | DropoutLayer(dropout: Dropout) | IdentityLayer(identity: Identity) {

    /** `InputSize` of the variant: the size field of the layer object it holds. */
    function InputSize(): (n: int)
      reads if LinearLayer? then {linear} else if DropoutLayer? then {dropout} else {identity}
      ensures LinearLayer? ==> n == linear.inputSize
      ensures DropoutLayer? ==> n == dropout.inputSize
      ensures IdentityLayer? ==> n == identity.inputSize
    {
      match this
      case LinearLayer(l) => l.inputSize
      case DropoutLayer(d) => d.inputSize
      case IdentityLayer(i) => i.inputSize
    }

    /** `OutputSize` of the variant: the size field of the layer object it holds. */
    function OutputSize(): (n: int)
      reads if LinearLayer? then {linear} else if DropoutLayer? then {dropout} else {identity}
      ensures LinearLayer? ==> n == linear.outputSize
      ensures DropoutLayer? ==> n == dropout.outputSize
      ensures IdentityLayer? ==> n == identity.outputSize
    {
      match this
      case LinearLayer(l) => l.outputSize
      case DropoutLayer(d) => d.outputSize
      case IdentityLayer(i) => i.outputSize
    }

    /** `Forward(x)`, dispatched: the pass-through variants return x, Linear a fresh tensor. */
    method Forward(x: Tensor) returns (r: Tensor)
      ensures !LinearLayer? ==> r == x
      ensures LinearLayer? ==> fresh(r) && r.Valid() && r.shape == [1, 1, 1]
      ensures LinearLayer? ==> r.GetBatchCell(0, 0, 0) == Success(0.0)
    {
      match this
      case LinearLayer(l) => r := l.Forward(x);
      case DropoutLayer(d) => r := d.Forward(x);
      case IdentityLayer(i) => r := i.Forward(x);
    }
  }

  /** Seen through Layer, a new Identity layer has input size = output size = its argument. */
  method IdentityLayerSizes(n: int) returns (l: Layer)
    ensures l.IdentityLayer? && l.InputSize() == n && l.OutputSize() == n
  {
    var i := new Identity(n);
    l := IdentityLayer(i);
  }

  /** Seen through Layer, a Dropout layer that the check as written lets through has input
      size = output size = its argument. */
  method DropoutLayerSizes(n: int, p: real) returns (r: Result<Layer>)
    ensures r.Success? <==> !(0.0 < p < 1.0)
    ensures r.Success? ==> r.value.DropoutLayer? && r.value.InputSize() == n && r.value.OutputSize() == n
  {
    var d := Dropout.Create(n, p);
    if d.Failure? {
      return Failure(d.error);
    }
    r := Success(DropoutLayer(d.value));
  }
}
