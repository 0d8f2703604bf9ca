module Wrappers {

  datatype Option<+T> = None | Some(value: T)

  /** The value of a call, or the error it raised. */
  datatype Result<+T, +E> = Ok(value: T) | Raised(error: E)
}
