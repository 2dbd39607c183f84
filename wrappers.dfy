/** Optional values and results with an error message, as used across the model. */
module Wrappers {

  datatype Option<T> = None | Some(value: T)

  /** The outcome of an operation that can fail with a message for the operator. */
  datatype Result<T> = Ok(value: T) | Err(message: string)
}
