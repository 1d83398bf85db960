/** The failure and absence datatypes the other modules share. */
module Wrappers {

  /** A value that may be absent: the source's `null` and `undefined`. */
  datatype Option<+T> = None | Some(value: T)

  /** A value or the reason there is none: the source's thrown errors and error returns. */
  datatype Result<+T, +E> = Ok(value: T) | Err(error: E)
}
