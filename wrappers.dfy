/** Option and Result, the two failure-carrying shapes the backend uses: a Python `None` return
    becomes `None`, a raised exception becomes `Failure` with its message. */
module Wrappers {

  datatype Option<+T> = None | Some(value: T) {
    function GetOr(default: T): T {
      match this
      case Some(v) => v
      case None => default
    }
  }

  datatype Result<+R, +E> = Success(value: R) | Failure(error: E)
}
