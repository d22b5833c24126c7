/** Failure-compatible wrappers: a Go `nil` pointer or map becomes `None`,
    a Go `(value, error)` pair becomes a `Result`. */
module Wrappers {

  datatype Option<+T> = None | Some(value: T)

  datatype Result<+R, +E> = Success(value: R) | Failure(error: E)
}
