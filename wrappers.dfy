/** C#'s null and a thrown exception, as values: a value that may be absent and
    the outcome of an operation that may throw. */
module Wrappers {

  /** `None` stands for C#'s `null`. */
  datatype Option<+T> = None | Some(value: T) {

    /** The value, or `default` when absent (C#'s `??`). */
    function GetOr(default: T): T {
      match this
      case Some(v) => v
      case None => default
    }
  }

  /** `Fail` stands for an exception thrown part-way through an operation. */
  datatype Outcome<+E> = Pass | Fail(error: E)
}
