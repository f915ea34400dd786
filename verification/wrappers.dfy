/** Option and Result, the two failure-carrying datatypes the model uses. */
module Wrappers {

  /** A value that may be absent, as Python's `None` return. */
  datatype Option<+T> = None | Some(value: T)

  /** Either a value or an error value. */
  datatype Result<+T, +E> = Success(value: T) | Failure(error: E)
}
