/** Optional values: a field of a stored settings object that may be absent. */
module Wrappers {

  datatype Option<+T> = None | Some(value: T) {

    /**
     * The held value, or `default` when absent: the `x ?? d` of page.tsx. It is
     * also header.tsx's `x || d` on the stored fields, whose only falsy values
     * besides absence, "" and 0, are the defaults themselves (an empty list is truthy).
     */
    function GetOr(default: T): (r: T)
      ensures Some? ==> r == value
      ensures None? ==> r == default
    {
      match this
      case Some(v) => v
      case None => default
    }
  }
}
