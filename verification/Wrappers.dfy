/** The two result shapes shared by the whole model. */
module Wrappers {
  /** A value that may be absent: the program's `null` and `undefined`. */
  datatype Option<+T> = None | Some(value: T)

  /** A call that returns or throws. */
  datatype Result<+T, +E> = Ok(value: T) | Err(error: E)
}
