/** Small types shared by every module of the model. */
module Prelude {

  /** A value that may be absent: Python's `None`, SQL's NULL. */
  datatype Option<+T> = None | Some(value: T) {
    function GetOr(default: T): T {
      if Some? then value else default
    }
  }

  /** The outcome of code that either returns a value or raises an exception. */
  datatype Result<+T, +E> = Ok(value: T) | Raised(error: E)
}
