/** Optional values and results, used where the program returns `None` or raises. */
module Wrappers {

  datatype Option<+T> = None | Some(value: T)

  /** An exception ends the call with `Err`; its text is not modelled, only its kind. */
  datatype Result<+T, +E> = Ok(value: T) | Err(error: E)
}
