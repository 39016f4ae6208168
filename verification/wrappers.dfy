/** Optional values and fallible results, used wherever the application works
    with `null`/`undefined` or with an operation that can throw. */
module Wrappers {

  /** A value that may be missing (`null`, `undefined` or an absent field). */
  datatype Option<+T> = None | Some(value: T) {

    /** The wrapped value, or `default` when it is missing (JavaScript's `x || d`
        for values that are truthy whenever present). */
    function GetOr(default: T): (r: T)
      ensures Some? ==> r == value
      ensures None? ==> r == default
    {
      match this
      case Some(v) => v
      case None => default
    }
  }

  /** The outcome of an operation that either returns a value or throws. */
  datatype Result<+R, +E> = Success(value: R) | Failure(error: E)
}
