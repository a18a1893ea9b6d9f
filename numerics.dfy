/** The numeric vocabulary of the model: 32-bit floats are modelled as reals, and the
    transcendental functions of System.MathF are parameters about which nothing is known
    except that `exp` is positive. */
module Numerics {

  type PosReal = r: real | r > 0.0 witness 1.0

  /** The floating-point library the activation and loss functions call. */
  datatype MathLib = MathLib(exp: real -> PosReal, log: real -> real, tanh: real -> real)

  /** A float result where IEEE arithmetic can produce NaN (the quotient 0/0). */
  datatype Scalar = Num(value: real) | NaN
}
