/** Option and Result, the two failure-carrying shapes used throughout the model. */
module Wrappers {

  /** A value that may be absent (JavaScript `null`/`undefined` where only presence matters). */
  datatype Option<+T> = None | Some(value: T)

  /** A computation that returns a value or throws an error with a message. */
  datatype Result<+T, +E> = Success(value: T) | Failure(error: E)
}
