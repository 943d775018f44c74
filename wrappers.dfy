/** Failure-compatible result types shared by the whole model. */
module Wrappers {

  /** A value that may be absent: JavaScript's `undefined`/`null` on one side, a value on the other. */
  datatype Option<+T> = None | Some(value: T) {

    /** The value, or `default` when absent (the `x || default` idiom of the source). */
    function GetOr(default: T): T
    {
      match this
      case Some(v) => v
      case None => default
    }
  }

  /** The outcome of an operation that can throw: a value, or the error it throws. */
  datatype Result<+T, +E> = Success(value: T) | Failure(error: E)
}
