/** Optional values, standing in for the null pointers the C++ code returns. */
module Wrappers {

  datatype Option<+T> = None | Some(value: T) {

    /** The wrapped value, or `default` when there is none. */
    function GetOr(default: T): T {
      match this
      case Some(v) => v
      case None => default
    }
  }

  /** A value, or the error a C++ `throw` would have raised. */
  datatype Result<+T, +E> = Success(value: T) | Failure(error: E)
}
