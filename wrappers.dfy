/** Failure-compatible wrappers used by the location parser: an optional value
    (the container accessor) and a success-or-error outcome (the constructor
    that either builds a location or throws a validation error). */
module Wrappers {

  datatype Option<+T> = None | Some(value: T) {

    /** The wrapped value, or `default` when there is none. */
    function GetOr(default: T): T {
      match this
      case Some(v) => v
      case None => default
    }
  }

  datatype Result<+R, +E> = Success(value: R) | Failure(error: E)
}
