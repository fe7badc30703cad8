/** Failure-carrying wrappers used throughout the model. */
module Wrappers {

  /** A value that may be missing. */
  datatype Option<+T> = None | Some(value: T)

  /** Either a value or an error: Go's `(T, error)` result pair. */
  datatype Result<+T, +E> = Ok(value: T) | Err(error: E)
}
