/** Optional values: a key that is present (Some) or absent (None) on a
    JavaScript object, and the result of an array search. */
module Wrappers {

  datatype Option<+T> = None | Some(value: T) {

    /** The value if present, otherwise `default`. */
    function GetOr(default: T): T {
      match this
      case Some(v) => v
      case None => default
    }

    /** Object-spread merge of one key: a present key on the right wins. */
    function Or(fallback: Option<T>): Option<T> {
      if Some? then this else fallback
    }
  }
}
