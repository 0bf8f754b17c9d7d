/** Option and Result datatypes used across the model. */
module Wrappers {

  /** An optional value: the PHP code's "null or something". */
  datatype Option<+T> = None | Some(value: T) {

    /** The wrapped value, or `default` when there is none. */
    function GetOr(default: T): T {
      match this
      case Some(v) => v
      case None => default
    }
  }

  /** The outcome of an operation that may throw: a value or the exception it raised. */
  datatype Result<+T, +E> = Ok(value: T) | Err(error: E)
}
