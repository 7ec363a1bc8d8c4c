/** Optional values and results with an error branch, shared by the other modules. */
module Wrappers {

  /** A value that may be missing, as an unset environment variable or an absent flag. */
  datatype Option<T> = None | Some(value: T)

  /** The outcome of a step that can fail with an error value instead of exiting the process. */
  datatype Result<T, E> = Ok(value: T) | Err(error: E)
}
