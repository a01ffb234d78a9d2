/** Option and Result: the "undefined or a value" and "resolved or rejected" shapes of the store's answers. */
module Wrappers {

  datatype Option<+T> = None | Some(value: T) {
    function GetOr(default: T): T {
      match this
      case Some(v) => v
      case None => default
    }
  }

  /** A settled promise: resolved with a value, or rejected with an error. */
  datatype Result<+T, +E> = Ok(value: T) | Err(error: E)
}
