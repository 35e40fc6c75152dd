/** The two result types every component shares. */
module Wrappers {

  /** A nullable column, an optional argument or a lookup that may miss. */
  datatype Option<+T> = None | Some(value: T) {
    function GetOr(default: T): T {
      if Some? then value else default
    }
  }

  /** A service call either returns a value or throws; `E` names the exception. */
  datatype Result<+T, +E> = Ok(value: T) | Err(error: E)
}
