/** Option and Result types used for the Go code's `(value, error)` returns. */
module Wrappers {

  datatype Option<+T> = None | Some(value: T)

  /** A Go `(T, error)` pair: either a value or the error's message. */
  datatype Result<+T> = Ok(value: T) | Err(error: string)

  /** A Go `error` return that carries no value: `Pass` is a nil error. */
  datatype Outcome = Pass | Fail(error: string)
}
