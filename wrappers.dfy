/** Optional values and results with an error, as the source's `null` checks and `try`/`catch` blocks need them. */
module Wrappers {

  datatype Option<+T> = None | Some(value: T)

  /** A computation that either produced a value or threw an exception carrying a message. */
  datatype Result<+T> = Ok(value: T) | Thrown(message: string)
}
