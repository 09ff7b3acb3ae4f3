/** Option and Result types shared by every module of the model. */
module Wrappers {

  /** A Python value that may be `None` (or, for dict lookups, an absent key). */
  datatype Option<+T> = None | Some(value: T) {
    function GetOr(default: T): T {
      match this
      case Some(v) => v
      case None => default
    }
  }

  /** An HTTP handler outcome: a payload, or the error the handler raises. */
  datatype Result<+R, +E> = Success(value: R) | Failure(error: E)
}
