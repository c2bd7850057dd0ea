/** Option and Result values used across the model. */
module Wrappers {

  /** A value that may be missing: a NaN/NaT/None cell of the data frame. */
  datatype Option<+T> = None | Some(value: T)

  /** The outcome of an analysis run: a value, or the error that stopped the run. */
  datatype Result<+T, +E> = Ok(value: T) | Err(error: E)
}
