/** Optional values and results with an error, as used across the model. */
module Wrappers {

  /** A value that may be missing: JavaScript's `undefined`/`null`, Go's nil. */
  datatype Option<+T> = None | Some(value: T) {
    function GetOr(default: T): T {
      match this
      case Some(v) => v
      case None => default
    }
  }

  /** The outcome of an operation whose source throws (or returns an error). */
  datatype Result<+T, +E> = Ok(value: T) | Err(error: E)
}
