/** Option and Result, the two failure-carrying shapes the model uses:
    Option for JavaScript values that may be `undefined`/`null`,
    Result for the handlers' and the parser's error paths. */
module Wrappers {

  datatype Option<+T> = None | Some(value: T) {
    /** `x || fallback` on a value that is either present or absent. */
    function GetOr(fallback: T): T {
      match this
      case Some(v) => v
      case None => fallback
    }
  }

  datatype Result<+T, +E> = Success(value: T) | Failure(error: E)
}
