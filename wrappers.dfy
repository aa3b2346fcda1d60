/** Failure-carrying values shared by the other modules. */
module Wrappers {

  /** A value that may be missing (Python's `None`). */
  datatype Option<+T> = None | Some(value: T)

  /** The outcome of a step that may raise: a value, or the exception that escaped. */
  datatype Result<+T, +E> = Ok(value: T) | Err(error: E)
}
