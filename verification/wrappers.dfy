/** Option and Result, the two failure-carrying shapes used throughout the model. */
module Wrappers {

  datatype Option<+T> = None | Some(value: T)

  /** A Go `(value, error)` pair whose two halves are never both set. */
  datatype Result<+T, +E> = Ok(value: T) | Err(error: E)
}
