/** Failure-carrying values used throughout the model. */
module Wrappers {

  /** An optional value; `None` also stands for a Go runtime panic where noted. */
  datatype Option<+T> = None | Some(value: T) {

    /** The value when present, otherwise `default`. */
    function GetOr(default: T): T {
      match this
      case Some(v) => v
      case None => default
    }
  }

  /** A value or the error a Go function returned instead of it. */
  datatype Result<+R, +E> = Success(value: R) | Failure(error: E)
}
