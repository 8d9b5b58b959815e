/** Option, Result and Outcome types used for the source's error returns and exceptions. */
module Wrappers {
  datatype Option<+T> = None | Some(value: T)

  datatype Result<+T, +E> = Ok(value: T) | Err(error: E)

  /** The result of an operation that returns nothing of interest, or raises. */
  datatype Outcome<+E> = Pass | Fail(error: E)
}
