/** Failure-carrying results shared by the model's modules. */
module Outcomes {

  datatype Option<+T> = None | Some(value: T)

  /** A value or the error that replaced it (Go's `(T, error)` pair). */
  datatype Result<+T, +E> = Ok(value: T) | Err(error: E)

  /** Success or the error of an operation that returns only `error` in Go. */
  datatype Outcome<+E> = Pass | Fail(error: E)
}
