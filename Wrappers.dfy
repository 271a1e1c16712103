/** Option and Result: the values the API's handlers return or raise. */
module Wrappers {

  /** A value that may be absent (Python's `None`). */
  datatype Option<+T> = None | Some(value: T)

  /** Either the handler's value or the error it raised. */
  datatype Result<+T, +E> = Ok(value: T) | Err(error: E)
}
