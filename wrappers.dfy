/** Option and Result, the two failure-carrying shapes the model needs. */
module Wrappers {

  /** A Python value that may be `None`. */
  datatype Option<+T> = None | Some(value: T)

  /** The outcome of a Python call that may raise. */
  datatype Result<+T, +E> = Ok(value: T) | Err(error: E)
}
