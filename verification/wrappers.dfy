/** Option and Result, the two failure-carrying shapes used throughout the model. */
module Wrappers {

  /** A value that may be absent: PHP's `null` or a missing array key. */
  datatype Option<+T> = None | Some(value: T) {
    function GetOr(default: T): T {
      match this
      case Some(v) => v
      case None => default
    }
  }

  /** The outcome of an operation that throws in PHP. */
  datatype Result<+R, +E> = Success(value: R) | Failure(error: E)
}
