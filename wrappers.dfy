/** Failure-carrying values: Python raises an exception where these return `Err`. */
module Wrappers {

  datatype Option<+T> = None | Some(value: T)

  /** `Err(error)` stands for a raised exception: `error` is its message
      (`str()`), or a value naming the exception where the message is not needed. */
  datatype Result<+T, +E> = Ok(value: T) | Err(error: E)
}
