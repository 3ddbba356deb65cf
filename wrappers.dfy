/** Failure-carrying values shared by the listener and the monitor models. */
module Wrappers {

  /** A value that may be absent: Go's nil pointer or missing map entry. */
  datatype Option<+T> = None | Some(value: T)

  /** A Go `(value, error)` pair: exactly one of the two is meaningful. */
  datatype Result<+T, +E> = Success(value: T) | Failure(error: E)

  /** A Go `error` return with no value beside it: nil is `Pass`. */
  datatype Outcome<+E> = Pass | Fail(error: E)
}
