/** Option and Result, the two failure-carrying datatypes the model uses. */
module Wrappers {

  /** A nullable value: None stands for C#'s null. */
  datatype Option<+T> = None | Some(value: T) {
    function GetOr(default: T): T {
      match this
      case Some(v) => v
      case None => default
    }
  }

  /** The outcome of an operation that either succeeds with a value or fails with an error. */
  datatype Result<+R, +E> = Success(value: R) | Failure(error: E)
}
