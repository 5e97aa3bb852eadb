/** Failure-compatible wrappers shared by every module of the model. */
module Wrappers {

  /** An optional value: a JSON field that may be absent, or a lookup that may miss. */
  datatype Option<+T> = None | Some(value: T) {
    function GetOr(default: T): T {
      match this
      case Some(v) => v
      case None => default
    }
  }

  /** The outcome of an operation that either returns a value or throws an error. */
  datatype Result<+T, +E> = Success(value: T) | Failure(error: E)
}
