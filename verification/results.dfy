/** Failure-compatible wrappers used throughout the model: an optional value,
    and the outcome of a call that either returns a value or throws. */
module Results {

  /** A value that may be missing (an unset array slot, an absent resource). */
  datatype Option<+T> = None | Some(value: T)

  /** The outcome of a PHP call: its return value, or the exception it threw.
      Usable with `:-`, so a thrown exception propagates like in PHP. */
  datatype Result<+T, +E> = Success(value: T) | Failure(error: E) {

    predicate IsFailure() {
      Failure?
    }

    function PropagateFailure<U>(): Result<U, E>
      requires Failure?
    {
      Failure(error)
    }

    function Extract(): T
      requires Success?
    {
      value
    }
  }
}
