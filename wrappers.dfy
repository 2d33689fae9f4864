/** Optional values and success/failure results used throughout the model. */
module Wrappers {

  /** Python's `None` versus a present value. */
  datatype Option<+T> = None | Some(value: T) {
    function GetOr(default: T): T {
      match this
      case Some(v) => v
      case None => default
    }
  }

  /** A value, or the error that the source would raise instead of returning. */
  datatype Result<+T, +E> = Success(value: T) | Failure(error: E)
}
