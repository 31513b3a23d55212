/** Option and Result values used across the model in place of JavaScript's
    null/undefined and thrown errors. */
module Wrappers {

  datatype Option<+T> = None | Some(value: T) {
    function GetOr(default: T): T {
      match this
      case Some(v) => v
      case None => default
    }
  }

  /** An operation that either returns a value or throws an Error with a message. */
  datatype Result<+T> = Ok(value: T) | Throws(message: string)
}
