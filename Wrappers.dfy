/** Absent values (Java's null) and failing results (Java's exceptions). */
module Wrappers {

  /** A value that may be absent; None stands for Java's null. */
  datatype Option<+T> = None | Some(value: T) {

    /** The value, or the default when it is absent (Optional.ofNullable(x).orElse(d)). */
    function GetOr(default: T): T {
      match this
      case Some(v) => v
      case None => default
    }
  }

  /** The outcome of an operation that may throw. */
  datatype Result<+R, +E> = Success(value: R) | Failure(error: E) {

    predicate IsFailure() {
      Failure?
    }

    function PropagateFailure<U>(): Result<U, E>
      requires Failure?
    {
      Failure(error)
    }

    function Extract(): R
      requires Success?
    {
      value
    }
  }
}
