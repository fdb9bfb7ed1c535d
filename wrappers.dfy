/** Optional values: Python's `X | None`. */
module Wrappers {

  datatype Option<+T> = None | Some(value: T) {

    /** Python's `x if x is not None else default`. */
    function GetOr(default: T): T {
      match this
      case Some(v) => v
      case None => default
    }
  }
}
