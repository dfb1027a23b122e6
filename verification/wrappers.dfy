/** Optional values and results, used for missing cells and for the
    errors the prediction path raises. */
module Wrappers {

  /** A cell or parse result that may be absent (pandas NaN). */
  datatype Option<+T> = None | Some(value: T) {

    /** The value, or `default` when absent (pandas `fillna`). */
    function GetOr(default: T): T {
      match this
      case Some(v) => v
      case None => default
    }
  }

  /** The outcome of an operation that can raise. */
  datatype Result<+T, +E> = Success(value: T) | Failure(error: E)
}
