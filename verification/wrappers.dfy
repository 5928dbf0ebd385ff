/** Option and Result datatypes shared by the model. */
module Wrappers {

  /** A value that may be missing: `localStorage.getItem` returning `null`, an absent response field. */
  datatype Option<+T> = None | Some(value: T) {

    /** Returns the value held in Some, or the default when None. */
    function GetOr(default: T): T {
      match this
      case Some(v) => v
      case None => default
    }
  }

  /** The outcome of an operation that may throw: a value, or the message of the thrown error. */
  datatype Result<+R, +E> = Ok(value: R) | Err(error: E)
}
