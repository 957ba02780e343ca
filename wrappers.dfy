/** Option, Result and Outcome: the model's stand-ins for Go's nil pointers and
    `(value, error)` / `error` returns. */
module Wrappers {

  datatype Option<+T> = None | Some(value: T) {
    function GetOr(default: T): T {
      match this
      case Some(v) => v
      case None => default
    }
  }

  datatype Result<+T, +E> = Ok(value: T) | Err(error: E)

  /** The result of a Go function that returns only an `error`. */
  datatype Outcome<+E> = Pass | Fail(error: E)
}
