/** Failure-compatible wrappers shared by every module of the model. */
module Wrappers {

  /** A value that may be absent: `undefined`/`null` in JavaScript. */
  datatype Option<+T> = None | Some(value: T) {
    /** The wrapped value, or `default` when absent. */
    function GetOr(default: T): T {
      if Some? then value else default
    }
  }

  /** Either a value or an error description. */
  datatype Result<+T, +E> = Ok(value: T) | Err(error: E)
}
