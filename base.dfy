/** Optional values: Python's `None` versus a present value. */
module Base {
  datatype Option<T> = None | Some(value: T) {
    /** The value when present, otherwise `default` (Python's `x if x is not None else default`). */
    function GetOr(default: T): T {
      match this
      case Some(v) => v
      case None => default
    }
  }
}
