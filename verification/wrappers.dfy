/** Option and Result, shared by every module of the model. */
module Wrappers {

  /** A value that may be absent: Go's nil pointer, nil map or nil error. */
  datatype Option<+T> = None | Some(value: T)

  /** The (value, error) pair a Go function returns, with exactly one side set. */
  datatype Result<+T, +E> = Ok(value: T) | Err(error: E)
}
