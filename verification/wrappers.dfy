/** Failure-carrying result types shared by every stage of the analyzer. */
module Wrappers {

  /** A value that may be absent, as a Python `dict.get` without default returns. */
  datatype Option<+T> = None | Some(value: T) {
    function GetOr(default: T): T {
      match this
      case Some(v) => v
      case None => default
    }
  }

  /** The outcome of an operation that may raise: the value, or the exception it raised. */
  datatype Result<+T, +E> = Success(value: T) | Failure(error: E)
}
