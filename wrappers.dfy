/** Optional values and results with an error, shared by every module. */
module Wrappers {

  datatype Option<T> = None | Some(value: T) {
    /** The value, or `default` when there is none (Python's `x if x is not None else default`). */
    function GetOr(default: T): T {
      if Some? then value else default
    }
  }

  /** The outcome of an operation that the source lets raise an exception. */
  datatype Result<T, E> = Ok(value: T) | Err(error: E)
}
