/** Option and Outcome: the two failure-compatible shapes the model needs. */
module Wrappers {

  /** A value that may be absent (Python's `None`). */
  datatype Option<+T> = None | Some(value: T)

  /** A value, or the error raised instead of producing it. */
  datatype Result<+T, +E> = Success(value: T) | Failure(error: E)

  /** The outcome of a call that returns nothing but may raise `error`. */
  datatype Outcome<+E> = Pass | Fail(error: E)
}
