/** Option and Result, with the error a database call or a helper throws. */
module Wrappers {
  datatype Option<+T> = None | Some(value: T) {
    function GetOr(default: T): T {
      match this
      case Some(v) => v
      case None => default
    }
  }

  /** A thrown error: its `code` ("" when it has none) and its `message`. */
  datatype Error = Error(code: string, message: string)

  datatype Result<+T> = Ok(value: T) | Err(error: Error)
}
