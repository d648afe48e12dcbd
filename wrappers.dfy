/** Failure-carrying datatypes shared by the other modules. */
module Wrappers {

  /** A value that may be absent. */
  datatype Option<+T> = None | Some(value: T) {
    function GetOr(default: T): T {
      match this
      case Some(v) => v
      case None => default
    }
  }

  /** Either a parsed value or the reasons it was refused. */
  datatype Result<+R, +E> = Success(value: R) | Failure(error: E)
}
