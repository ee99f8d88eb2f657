/** Failure-carrying values used in place of Python's None and exceptions. */
module Wrappers {

  /** A value that may be missing (Python's `None`). */
  datatype Option<+T> = None | Some(value: T)

  /** A computation that either yields a value or raises an error. */
  datatype Result<+T, +E> = Success(value: T) | Failure(error: E)

  /** A computation that yields nothing, but may raise an error. */
  datatype Outcome<+E> = Pass | Fail(error: E)
}
