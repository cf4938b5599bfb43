/** Option and Result, the two failure-carrying datatypes the model uses. */
module Wrappers {

  /** A value that may be absent: a missing dictionary key, or `None` from a search. */
  datatype Option<+T> = None | Some(value: T) {

    /** The value, or `default` when absent (Python's `d.get(key, default)`). */
    function GetOr(default: T): T {
      match this
      case Some(v) => v
      case None => default
    }
  }

  /** A computation that succeeds with a value or fails with an error (a raised exception). */
  datatype Result<+T, +E> = Ok(value: T) | Err(error: E)
}
