/** Option and Result: the model's stand-ins for Go's nil pointers and `(value, error)` returns. */
module Wrappers {

  datatype Option<+T> = None | Some(value: T)

  datatype Result<+R, +E> = Success(value: R) | Failure(error: E) {
    predicate IsFailure() { Failure? }

    function PropagateFailure<U>(): Result<U, E>
      requires Failure?
    {
      Failure(error)
    }

    function Extract(): R
      requires Success?
    {
      value
    }
  }
}

/** Fixed-width unsigned integers of the Go source, as ranges of `int`. */
module Bytes {

  /** Go `byte` (uint8). */
  type byte = x: int | 0 <= x < 0x100

  /** Go `uint16`, the type of a UTF-16 code unit. */
  type uint16 = x: int | 0 <= x < 0x1_0000
}
