/** Small failure-carrying datatypes shared by the whole model. */
module Wrappers {

  /** A value that may be absent: Python's None, or a NULL column. */
  datatype Option<+T> = None | Some(value: T) {

    /** The carried value, or `default` when there is none (Python's `x or default`
        for values that are only ever falsy when absent). */
    function GetOr(default: T): T {
      match this
      case Some(v) => v
      case None => default
    }
  }
}
