/** Optional values and success-or-error values shared by every module. */
module Wrappers {

  /** A value that may be absent: a JavaScript property that is `undefined`. */
  datatype Option<+T> = None | Some(value: T) {

    /** The value, or `default` when absent (JavaScript's `x !== undefined ? x : default`). */
    function GetOr(default: T): T {
      match this
      case Some(v) => v
      case None => default
    }
  }

  /** A promise that resolved with `value` or rejected with `error`. */
  datatype Result<+T, +E> = Ok(value: T) | Err(error: E)
}
