/** Option and Result values used throughout the model in place of
    JavaScript's `undefined`/`null` and thrown errors. */
module Wrappers {

  datatype Option<+T> = None | Some(value: T) {
    function GetOr(default: T): T {
      match this
      case Some(v) => v
      case None => default
    }
  }

  /** An operation either completes with a value or throws an `Error` whose
      message is `msg`. */
  datatype Result<+T> = Ok(value: T) | Err(msg: string)
}
