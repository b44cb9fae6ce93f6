/** Option and Result, used for Python's `None` returns and raised errors. */
module Wrappers {

  datatype Option<+T> = None | Some(value: T) {
    function GetOr(default: T): T {
      match this
      case Some(v) => v
      case None => default
    }
  }

  /** `Err` stands for a raised exception; `Ok` for a normal return. */
  datatype Result<+R, +E> = Ok(value: R) | Err(error: E)
}
