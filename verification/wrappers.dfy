/** Optional values and results with an error, for the places where the source
    answers `undefined` or throws. */
module Wrappers {

  datatype Option<+T> = None | Some(value: T) {
    /** The JavaScript `x ?? d` / `x || d` idiom on a value that is either present or undefined. */
    function GetOr(default: T): T
    {
      if Some? then value else default
    }
  }

  datatype Result<+T, +E> = Ok(value: T) | Err(error: E)

  /** Outcome of an operation that returns nothing but may throw. */
  datatype Outcome<+E> = Pass | Fail(error: E)
}
