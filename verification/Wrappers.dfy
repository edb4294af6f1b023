module Wrappers {
  datatype Option<+T> = None | Some(value: T)

  /** A Go call that returns a value and an error. */
  datatype Result<+T> = Ok(value: T) | Err(message: string)
}
