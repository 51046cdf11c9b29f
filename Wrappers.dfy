/** Option and Result, used for the optional fields of the input and for the
    abort on a missing quantity. */
module Wrappers {

  datatype Option<+T> = None | Some(value: T) {
    /** The value if present, otherwise `default` (Python's `dict.get(key, default)`). */
    function GetOr(default: T): T {
      match this
      case Some(v) => v
      case None => default
    }
  }

  datatype Result<+T, +E> = Ok(value: T) | Err(error: E)
}
