/** The two result datatypes shared by every component. */
module Wrappers {

  /** A value that may be absent: a nullable column, an unset session field, `undefined`. */
  datatype Option<+T> = None | Some(value: T)

  /** The outcome of a request: a value, or the exception the handler throws. */
  datatype Result<+T, +E> = Ok(value: T) | Err(error: E)
}
