/** Small failure-carrying datatypes shared by the rest of the model. */
module Wrappers {

  /** A value that may be absent: an unset PHP property, a missing array key, a JSON null. */
  datatype Option<+T> = None | Some(value: T)

  /** The result of a check that either yields a value or fails with a message. */
  datatype Result<+R, +E> = Ok(value: R) | Err(error: E)

  /** The result of a check that yields nothing on success. */
  datatype Outcome<+E> = Pass | Fail(error: E)
}
