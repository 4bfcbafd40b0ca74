/** Option and Result, the two failure-carrying shapes the model uses for JavaScript's
    null/undefined and for Python exceptions turned into error replies. */
module Wrappers {

  datatype Option<+T> = None | Some(value: T) {
    /** `x ?? d`: the carried value, or `d` when there is none. */
    function GetOr(default: T): T {
      match this
      case Some(v) => v
      case None => default
    }
  }

  datatype Result<+R, +E> = Success(value: R) | Failure(error: E)
}
