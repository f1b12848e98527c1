/** Option and Result values, used where the program reads an optional key or a call may raise. */
module Wrappers {

  datatype Option<+T> = None | Some(value: T) {

    /** The wrapped value, or `default` when there is none (Python's `dict.get(key, default)`). */
    function GetOr(default: T): T {
      match this
      case Some(v) => v
      case None => default
    }
  }

  /** The outcome of a call that either returns a value or raises an error with a message. */
  datatype Result<+R, +E> = Success(value: R) | Failure(error: E)
}
