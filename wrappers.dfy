/** Option and Result, the two failure-carrying shapes the rest of the model uses. */
module Wrappers {

  /** A value that may be absent (Go's nil pointer or nil error). */
  datatype Option<+T> = None | Some(value: T)

  /** A value or an error (Go's `(value, *Report)` return pairs). */
  datatype Result<+T, +E> = Ok(value: T) | Err(error: E)
}
