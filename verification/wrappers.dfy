/** An optional value, used by `Rules`, `Classifier`, `Cycle` and `Scenarios`. */
module Wrappers {

  /** A value that may be missing: Python's `None`, or a key absent from a dict. */
  datatype Option<+T> = None | Some(value: T) {

    /** Returns the wrapped value, or `default` when there is none (`dict.get(k, default)`). */
    function GetOr(default: T): (r: T)
      ensures Some? ==> r == value
      ensures None? ==> r == default
    {
      match this
      case Some(v) => v
      case None => default
    }
  }
}
