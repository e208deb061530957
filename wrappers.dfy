/** Failure-compatible wrappers shared by the whole model. */
module Wrappers {

  /** A value that may be absent (Python's `None`, or a lookup that finds nothing). */
  datatype Option<+T> = None | Some(value: T)

  /** A computation that either succeeds or stops with an error value. */
  datatype Result<+T, +E> = Ok(value: T) | Err(error: E)
}
