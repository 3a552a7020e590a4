/** Failure-carrying datatypes shared by the model. */
module Wrappers {

  /** An optional value: `None` where there is nothing to return. */
  datatype Option<+T> = None | Some(value: T)

  /** A value, or the exception the cannon would raise instead. */
  datatype Result<+T, +E> = Ok(value: T) | Err(error: E)
}
