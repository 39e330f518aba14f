/** Option and Result values used for the backend's fallible steps. */
module Wrappers {

  datatype Option<+T> = None | Some(value: T) {
    function GetOr(default: T): T {
      match this
      case Some(v) => v
      case None => default
    }
  }

  /** A step that either produces a value or fails with the message of the raised exception. */
  datatype Result<+T> = Ok(value: T) | Err(error: string)
}
