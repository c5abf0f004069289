/** Option and Result, used for pandas' missing values and for the errors process_excel raises. */
module Wrappers {

  /** A value that may be missing (pandas NaN / None). */
  datatype Option<+T> = None | Some(value: T) {

    /** The value, or the given default when it is missing (pandas' fillna). */
    function GetOr(default: T): (r: T)
      ensures Some? ==> r == value
      ensures None? ==> r == default
    {
      match this
      case Some(v) => v
      case None => default
    }
  }

  /** The outcome of an operation that can raise. */
  datatype Result<+R, +E> = Success(value: R) | Failure(error: E)
}
