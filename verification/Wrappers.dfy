/** Optional values and the outcome of an operation that can fail. */
module Wrappers {

  /** A value that may be absent (a TypeScript `T | undefined`). */
  datatype Option<+T> = None | Some(value: T) {
    function GetOr(default: T): T {
      match this
      case Some(v) => v
      case None => default
    }
  }

  /** Either a result or the error that stopped the operation. */
  datatype Result<+R, +E> = Success(value: R) | Failure(error: E)
}
