/** Optional values and success/failure results shared by the whole model. */
module Wrappers {

  /** A value that may be absent (a missing request field, a lookup that finds nothing). */
  datatype Option<+T> = None | Some(value: T)

  /** The outcome of a request handler: a value, or the error it throws. */
  datatype Result<+T, +E> = Ok(value: T) | Err(error: E)
}
