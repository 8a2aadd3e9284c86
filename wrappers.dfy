/** Failure-compatible wrappers used across the model. */
module Wrappers {

  /** An optional value: the model's stand-in for a nullable reference. */
  datatype Option<+T> = None | Some(value: T)

  /** A value or the error that the source would have thrown instead. */
  datatype Result<+T, +E> = Success(value: T) | Failure(error: E)
}
