/** The usual failure-carrying datatypes. */
module Wrappers {
  datatype Option<+T> = None | Some(value: T)

  datatype Unit = Unit

  datatype Result<+T, +E> = Ok(value: T) | Err(error: E)
}
