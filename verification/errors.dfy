/** Go's error conventions, as the daemon uses them. */
module Errors {

  /** A non-nil Go `error`; only its message is observable. */
  datatype Error = Error(message: string)

  /** A Go `error` return value: nil, or a non-nil error. */
  datatype MaybeError = Nil | NonNil(error: Error)

  /** A Go `(T, error)` return pair: the value is meaningful only when the error is nil. */
  datatype Result<T> = Ok(value: T) | Err(error: Error)
}
