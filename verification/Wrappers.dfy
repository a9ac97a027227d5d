/** Failure-carrying results shared by every module. */
module Wrappers {

  /** The value of a query that may find no row. */
  datatype Option<+T> = None | Some(value: T) {
    function GetOr(default: T): T {
      match this
      case Some(v) => v
      case None => default
    }
  }

  /** The value of a statement or request, or the error it ended with. */
  datatype Result<+T, +E> = Success(value: T) | Failure(error: E)
}
