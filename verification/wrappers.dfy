/** Failure-compatible wrappers shared by the other modules. */
module Wrappers {

  /** A value that may be absent, as Python's `None` is for an optional argument. */
  datatype Option<+T> = None | Some(value: T)

  /** Either a computed value or the error that stopped the computation. */
  datatype Result<+T, +E> = Success(value: T) | Failure(error: E)
}
