/** Option and Result, the failure-carrying datatypes used throughout the model. */
module Wrappers {

  datatype Option<+T> = None | Some(value: T)

  /** The outcome of an operation that may throw: a value or the thrown exception. */
  datatype Result<+T, +E> = Success(value: T) | Failure(error: E)
}
