/** Option and Result, the two failure-compatible shapes the rest of the model uses. */
module Wrappers {

  /** `undefined`/`null` versus a present value. */
  datatype Option<+T> = None | Some(value: T) {
    function GetOr(default: T): T {
      match this
      case Some(v) => v
      case None => default
    }
  }

  /** The success value of an operation, or its error. */
  datatype Result<+T, +E> = Ok(value: T) | Err(error: E)
}
