/** Option and Result values used across the model for the source's
    `Option<T>` and `Result<T, E>` returns. */
module Wrappers {

  datatype Option<+T> = None | Some(value: T)

  datatype Result<+T, +E> = Ok(value: T) | Err(error: E)

  /** The unit value `()` of the source's `Result<(), E>` returns. */
  datatype Unit = Unit
}
