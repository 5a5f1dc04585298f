/** Optional values and results with an error, used by every module of the model. */
module Wrappers {

  /** A value that may be absent: Python's `None` and a missing dict key, PHP's `null`. */
  datatype Option<+T> = None | Some(value: T) {
    function GetOr(default: T): T {
      match this
      case Some(v) => v
      case None => default
    }
  }

  /** The outcome of an operation that can raise: a value, or the error it raised. */
  datatype Result<+T, +E> = Ok(value: T) | Err(error: E)
}
