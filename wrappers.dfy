/** Option and Result, the failure-carrying values used throughout the model. */
module Wrappers {

  /** An optional value: JavaScript's `undefined`/`null` and Python's `None` where they mean "absent". */
  datatype Option<+T> = None | Some(value: T) {

    /** The wrapped value, or `default` when absent (the source's `x ?? d` and `x || d` on objects). */
    function GetOr(default: T): T {
      match this
      case Some(v) => v
      case None => default
    }
  }

  /** A computation that either yields a value or raises an error. */
  datatype Result<+T, +E> = Ok(value: T) | Err(error: E)
}
