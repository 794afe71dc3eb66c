/** Optional values, used wherever the program returns `None` for "no value"
    (an invalid model key, a missing command result). */
module Wrappers {

  datatype Option<+T> = None | Some(value: T) {

    /** The value held in `Some`, or `default` for `None` (Python's `x or default`
        when the value itself is never falsy). */
    function GetOr(default: T): T {
      match this
      case Some(v) => v
      case None => default
    }
  }
}
