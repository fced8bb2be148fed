/** Failure-compatible wrappers shared by every module of the model. */
module Wrappers {

  /** Python's `None` versus a present value, and "key absent" versus "key present". */
  datatype Option<+T> = None | Some(value: T) {
    function GetOr(default: T): T {
      match this
      case Some(v) => v
      case None => default
    }
  }

  /** A call that either returns a value or raises. */
  datatype Result<+T, +E> = Ok(value: T) | Err(error: E)
}
