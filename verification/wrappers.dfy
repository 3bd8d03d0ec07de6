/** Optional values and results used to model Python's `None` and raised errors. */
module Wrappers {

  /** An optional value: `None` stands for Python's `None` or a missing key. */
  datatype Option<+T> = None | Some(value: T) {

    /** The wrapped value, or `default` when there is none. */
    function GetOr(default: T): T {
      match this
      case Some(v) => v
      case None => default
    }
  }

  /** A computed value or the error the source would have raised. */
  datatype Result<+R, +E> = Success(value: R) | Failure(error: E)
}
