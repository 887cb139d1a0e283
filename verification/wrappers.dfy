/** Option and outcome types shared by the whole model. */
module Wrappers {

  /** A value that may be absent: Python's `None`, C#'s `null`. */
  datatype Option<+T> = None | Some(value: T)

  /** A computation that yields a value or stops with an error. */
  datatype Result<+T, +E> = Success(value: T) | Failure(error: E)

  /** A step that either completes or stops with an error. */
  datatype Outcome<+E> = Pass | Fail(error: E)
}
