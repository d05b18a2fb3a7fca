/** Option and Result, the two failure-carrying wrappers the rest of the model uses. */
module Wrappers {

  /** A value that may be absent: JavaScript's null/undefined, Python's None. */
  datatype Option<+T> = None | Some(value: T)

  /** The outcome of an operation that either returns a value or raises/throws an error. */
  datatype Result<+R, +E> = Success(value: R) | Failure(error: E)
}
