/** Small failure-aware value types shared by the modules of this model. */
module Wrappers {

  /** A value that may be absent (Swift's Optional). */
  datatype Option<+T> = None | Some(value: T) {

    /** The wrapped value, or `default` when absent (Swift's `??`). */
    function GetOr(default: T): T {
      match this
      case Some(v) => v
      case None => default
    }
  }

  /** The result of a throwing call that returns a value on success. */
  datatype Result<+T, +E> = Success(value: T) | Failure(error: E)

  /** The outcome of a throwing call that returns nothing on success. */
  datatype Outcome<+E> = Pass | Fail(error: E)
}
