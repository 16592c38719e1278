/** Option and Result values for the absent values and raised exceptions of the modelled code. */
module Wrappers {

  /** A value that may be absent: Python's `None` or a value. */
  datatype Option<+T> = None | Some(value: T)

  /** The result of a Python call that either returns normally or raises. */
  datatype Result<+T, +E> = Ok(value: T) | Err(error: E)
}
