/** Option and Result: the absence of a value and the error paths that the
  * JavaScript code expresses with null, undefined and thrown exceptions. */
module Basics {
  datatype Option<T> = None | Some(value: T)

  datatype Result<T, E> = Ok(value: T) | Err(error: E)

  function Min(a: int, b: int): int { if a <= b then a else b }
  function Max(a: int, b: int): int { if a >= b then a else b }

  /** `x || 0` for a number that may be absent. */
  function OrZero(x: Option<real>): real {
    if x.Some? then x.value else 0.0
  }

  /** The product of two amounts, as a function so that equal factors are
    * seen to give equal products. */
  function Times(a: real, b: real): real { a * b }
}
