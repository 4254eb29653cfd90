/** Optional values and results with an error, used across the model. */
module Wrappers {

  /** A value that may be missing: a failed price lookup, or an indicator that is not yet defined. */
  datatype Option<+T> = None | Some(value: T)

  /** The outcome of an operation that can report an error instead of a value. */
  datatype Result<+T, +E> = Ok(value: T) | Err(error: E)
}
