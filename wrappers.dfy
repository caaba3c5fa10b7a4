/** Optional values and error returns shared by the model's modules. */
module Wrappers {

  /** A value that may be absent: `undefined`/`null` in the source. */
  datatype Option<+T> = None | Some(value: T) {
    function GetOr(default: T): T {
      match this
      case Some(v) => v
      case None => default
    }
  }

  /** The outcome of an operation that reports failure instead of throwing. */
  datatype Result<+R> = Success(value: R) | Failure(error: string)
}
