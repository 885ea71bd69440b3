/** Failure-carrying datatypes used across the model: an optional value
    (the source's `undefined`/`null`) and a result that is either a value or
    the error a thrown exception would carry. */
module Wrappers {

  datatype Option<+T> = None | Some(value: T) {

    /** The value, or `default` when absent (a destructuring default). */
    function GetOr(default: T): T {
      match this
      case Some(v) => v
      case None => default
    }
  }

  datatype Result<+T, +E> = Ok(value: T) | Err(error: E)
}
