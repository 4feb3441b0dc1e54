/** Failure-carrying result types used across the model. */
module Wrappers {

  /** A value that may be missing: `None` stands for a C `NULL` pointer. */
  datatype Option<+T> = None | Some(value: T)

  /** The outcome of an operation that can report an error code. */
  datatype Result<+T, +E> = Success(value: T) | Failure(error: E)
}
