/** Failure-carrying results: the model's stand-in for Python exceptions. */
module Wrappers {

  datatype Option<+T> = None | Some(value: T)

  datatype Result<+T, +E> = Success(value: T) | Failure(error: E)

  /** The outcome of a call that returns nothing but may raise. */
  datatype Outcome<+E> = Pass | Fail(error: E)
}
