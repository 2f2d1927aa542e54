/** Failure-carrying datatypes shared by every module of the model. */
module Wrappers {

  /** A value that may be missing: JavaScript's `null` for a nullable result. */
  datatype Option<+T> = None | Some(value: T) {

    /** The encapsulated value, or `default` when there is none (the `??` operator). */
    function GetOr(default: T): T {
      match this
      case Some(v) => v
      case None => default
    }
  }

  /** The outcome of an operation that either produces a value or fails with an error. */
  datatype Result<+R, +E> = Success(value: R) | Failure(error: E)
}
