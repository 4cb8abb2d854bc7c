/** Option and Result, the failure-carrying values used across the model. */
module Wrappers {

  /** A value that may be absent: C#'s nullable reference. */
  datatype Option<+T> = None | Some(value: T)

  /** The outcome of an operation that may throw: either its value or the exception. */
  datatype Result<+R, +E> = Success(value: R) | Failure(error: E)
}
