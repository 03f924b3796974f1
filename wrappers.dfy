/** Absence and failure values used throughout the model. */
module Wrappers {

  /** `undefined`/`null` versus a present value. */
  datatype Option<+T> = None | Some(value: T)

  /** A computation that either succeeds or throws. */
  datatype Result<+T, +E> = Ok(value: T) | Err(error: E)
}
