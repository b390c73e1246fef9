/** Small failure-carrying wrappers shared by the other modules. */
module Wrappers {

  datatype Option<+T> = None | Some(value: T)

  /** The value of a call that either returns normally or raises. */
  datatype Result<+T, +E> = Ok(value: T) | Err(error: E)
}
