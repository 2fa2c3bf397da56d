/** Optional values: JavaScript's `null` / `undefined`, a missing row, a failed call. */
module Wrappers {
  datatype Option<+T> = None | Some(value: T) {
    function GetOr(default: T): T {
      match this
      case Some(v) => v
      case None => default
    }
  }
}
