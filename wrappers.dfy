/** Optional values: JavaScript's `null` / `undefined` (or an absent optional property)
    is `None`, a present value is `Some`. */
module Wrappers {

  datatype Option<+T> = None | Some(value: T) {

    /** The value, or `default` when absent. */
    function GetOr(default: T): T {
      match this
      case Some(v) => v
      case None => default
    }
  }
}
