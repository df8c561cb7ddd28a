/** Optional values and fallible results, as used throughout the model. */
module Wrappers {

  /** A value that may be absent (Python's `None`). */
  datatype Option<+T> = None | Some(value: T) {
    /** The carried value, or `default` when absent. */
    function GetOr(default: T): T {
      match this
      case Some(v) => v
      case None => default
    }
  }

  /** A computation that either succeeds or raises (the error is a description of the exception). */
  datatype Result<+T, +E> = Success(value: T) | Failure(error: E)
}
