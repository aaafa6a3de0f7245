/** Optional values (`undefined`/`null` versus a value) and the outcome of an
    operation that may throw. */
module Wrappers {

  datatype Option<+T> = None | Some(value: T)

  /** `Err` carries the message of the exception the source throws. */
  datatype Result<+T> = Ok(value: T) | Err(message: string)
}
