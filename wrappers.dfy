/** Option, Result and Outcome: stand-ins for the source's nulls and exceptions. */
module Wrappers {

  /** A value or C#'s null. */
  datatype Option<+T> = None | Some(value: T) {
    function GetOr(default: T): T {
      match this
      case Some(v) => v
      case None => default
    }
  }

  /** A value, or the exception that was raised instead. */
  datatype Result<+R, +E> = Success(value: R) | Failure(error: E)

  /** Normal completion, or the exception that escaped. */
  datatype Outcome<+E> = Pass | Fail(error: E)
}
