/** Optional values and results with an error message, as the player's code uses them
    (`None` for a missing value, an exception text for a failed operation). */
module Wrappers {

  datatype Option<+T> = None | Some(value: T)

  /** The outcome of an external operation: a value, or the text of the exception it raised. */
  datatype Result<+T> = Ok(value: T) | Err(error: string)
}
