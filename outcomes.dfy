/** Optional values and the outcome of an operation that may throw. */
module Outcomes {

  /** A value that may be absent (JavaScript's `undefined` for None). */
  datatype Option<+T> = None | Some(value: T)

  /** The value of an operation, or the message of the Error it threw. */
  datatype Result<+T> = Ok(value: T) | Err(message: string)
}
