/** Option and Result: the error paths of the modelled Python code
    (None returns and raised exceptions) as values. */
module Wrappers {

  datatype Option<+T> = None | Some(value: T) {
    function GetOr(default: T): T {
      match this
      case Some(v) => v
      case None => default
    }
  }

  /** A value, or the message of the exception that was raised instead. */
  datatype Result<+T> = Ok(value: T) | Err(error: string)
}
