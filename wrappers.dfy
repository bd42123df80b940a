/** Optional values and results with an error, used across the model. */
module Wrappers {

  /** A value that may be absent: a missing cell (NaN in the table). */
  datatype Option<+T> = None | Some(value: T)

  /** Either a computed value or the error that stopped the computation. */
  datatype Result<+T, +E> = Ok(value: T) | Err(error: E)
}
