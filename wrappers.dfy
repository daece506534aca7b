/** Option and Result, used for absent values and for thrown errors. */
module Wrappers {

  /** A value that may be absent (`undefined`/`null` on the source side). */
  datatype Option<+T> = None | Some(value: T) {

    /** The value, or `default` when absent: the `??` operator. */
    function GetOr(default: T): (r: T)
      ensures Some? ==> r == value
      ensures None? ==> r == default
    {
      match this
      case Some(v) => v
      case None => default
    }
  }

  /** Either a value or the error a call would throw. */
  datatype Result<+R, +E> = Success(value: R) | Failure(error: E)
}
