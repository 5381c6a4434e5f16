/** Optional values and results with an error, shared by every module of the model. */
module Wrappers {

  /** A value that may be absent: Go's nil pointer, nil slice or "no request". */
  datatype Option<+T> = None | Some(value: T)

  /** The outcome of an operation that can fail, as Go's `(value, err)` pairs. */
  datatype Result<+T, +E> = Ok(value: T) | Err(error: E)
}
