/** Optional values: a Python `None` or a key missing from a dict. */
module Wrappers {

  datatype Option<+T> = None | Some(value: T) {

    /** `d.get(k, default)` for an optional value: the default replaces only a missing value. */
    function GetOr(default: T): T {
      match this
      case Some(v) => v
      case None => default
    }
  }
}
