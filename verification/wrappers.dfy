/** Failure-carrying result types used across the model. */
module Wrappers {

  /** A value that may be absent: a Go `(value, ok)` pair or a nil pointer. */
  datatype Option<+T> = None | Some(value: T) {

    /** The wrapped value, or `default` when absent. */
    function GetOr(default: T): T {
      match this
      case Some(v) => v
      case None => default
    }
  }

  /** Either a value or an error, like a Go `(value, error)` pair. */
  datatype Result<+R, +E> = Success(value: R) | Failure(error: E)

  /** An operation that yields no value but may fail, like a bare Go `error`. */
  datatype Outcome<+E> = Pass | Fail(error: E)
}
