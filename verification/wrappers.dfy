/** Failure-carrying datatypes shared by the modules of this model. */
module Wrappers {

  /** A value that may be absent (Python's `None`, a regex that did not match). */
  datatype Option<+T> = None | Some(value: T)

  /** The outcome of an operation that either produces a value or raises / exits with an error. */
  datatype Result<+T, +E> = Success(value: T) | Failure(error: E)
}
