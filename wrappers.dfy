/** Optional values and results with an error, shared by the other modules. */
module Wrappers {

  /** `None` stands for a JavaScript property that is absent (reads as `undefined`). */
  datatype Option<+T> = None | Some(value: T) {
    function GetOr(default: T): (r: T)
      ensures Some? ==> r == value
      ensures None? ==> r == default
    {
      match this
      case Some(v) => v
      case None => default
    }
  }

  /** The outcome of an operation that may throw. */
  datatype Result<+R, +E> = Success(value: R) | Failure(error: E)
}
