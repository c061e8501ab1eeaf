/** Option and Result, shared by the rest of the model. */
module Wrappers {

  /** A possibly-absent value; stands in for a Java reference that may be null. */
  datatype Option<+T> = None | Some(value: T)

  /** The outcome of an operation that either produces a value or raises an error. */
  datatype Result<+R, +E> = Success(value: R) | Failure(error: E)
}
