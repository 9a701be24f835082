/** Failure-carrying values used in place of Go's `(value, error)` and
    `error` returns. */
module Outcomes {

  /** An optional value; `None` stands for a Go `nil` interface value. */
  datatype Option<+T> = None | Some(value: T)

  /** A value or an error, the shape of a Go `(T, error)` return. */
  datatype Result<+T, +E> = Success(value: T) | Failure(error: E)

  /** Only an error or nothing, the shape of a Go `error` return. */
  datatype Check<+E> = Pass | Fail(error: E)
}
