/** Failure-carrying result types used across the model. */
module Wrappers {

  datatype Option<+T> = None | Some(value: T)

  /** Success with a value, or failure with the message a form shows to the user. */
  datatype Result<+T, +E> = Ok(value: T) | Err(error: E)
}
