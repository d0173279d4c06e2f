/** Option and Result: JavaScript's `undefined`/`null` results and error returns. */
module Wrappers {

  datatype Option<+T> = None | Some(value: T) {
    /** `x ?? d` / `x || d` on an optional value. */
    function GetOr(default: T): T {
      match this
      case Some(v) => v
      case None => default
    }
  }

  datatype Result<+T, +E> = Ok(value: T) | Err(error: E)
}
