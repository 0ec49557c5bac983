/** Option and Result, shared by every module of the model. */
module Wrappers {

  datatype Option<+T> = None | Some(value: T)

  /** The outcome of a Python computation: a value, or an exception it raises. */
  datatype Result<+T, +E> = Ok(value: T) | Err(error: E)
}
