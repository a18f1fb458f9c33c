/** Results and options. */
module Wrappers {

  datatype Option<+T> = None | Some(value: T) {
    /** The value, or the default if there is none. */
    function GetOr(default: T): T {
      if Some? then value else default
    }
  }

  datatype Result<+T, +E> = Ok(value: T) | Err(error: E)
}
