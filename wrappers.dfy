/** Failure-carrying values used across the model. */
module Wrappers {

  /** A value that may be absent: a missing file, a separator that is not there. */
  datatype Option<+T> = None | Some(value: T) {
    function GetOr(default: T): T {
      match this
      case Some(v) => v
      case None => default
    }
  }

  /** The outcome of a computation that raises in the source program. */
  datatype Result<+R, +E> = Success(value: R) | Failure(error: E)
}
