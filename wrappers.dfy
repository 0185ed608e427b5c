/** Optional values and results, used wherever the source has `undefined`/`null` or an error path. */
module Wrappers {

  /** `None` stands for JavaScript's `undefined` (a missing key, an unset field). */
  datatype Option<+T> = None | Some(value: T) {
    function GetOr(default: T): T {
      match this
      case Some(v) => v
      case None => default
    }
  }

  /** A handler either produces a value or throws an error. */
  datatype Result<+T, +E> = Ok(value: T) | Err(error: E)
}
