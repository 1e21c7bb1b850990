/** Optional values and validation outcomes shared by every module. */
module Common {

  /** Python's `None`, or a value. */
  datatype Option<+T> = None | Some(value: T) {

    /** The value, or `default` when there is none (`dict.get(key, default)`). */
    function GetOr(default: T): T {
      match this
      case Some(v) => v
      case None => default
    }
  }

  /** The outcome of a call that either returns a value or raises. */
  datatype Result<+T, +E> = Success(value: T) | Failure(error: E)
}
