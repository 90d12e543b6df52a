/** Option and Result, the shapes the rest of the model uses for Go's nil pointers and (value, error) pairs. */
module Wrappers {

  /** A Go pointer that may be nil, or an optional value. */
  datatype Option<+T> = None | Some(value: T)

  /** A Go `(value, error)` return: Ok carries the value, Err the error text. */
  datatype Result<+T> = Ok(value: T) | Err(error: string)
}
