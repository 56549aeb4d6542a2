/** Failure-compatible wrappers shared by every phase of the interpreter. */
module Results {

  /** An optional value: Go's results that may be nil (a regexp match, a table lookup). */
  datatype Option<+T> = None | Some(value: T)

  /** A value or an error, usable with `:-` like Go's `(value, error)` pairs. */
  datatype Result<+T, +E> = Success(value: T) | Failure(error: E) {

    predicate IsFailure() {
      Failure?
    }

    function PropagateFailure<U>(): Result<U, E>
      requires Failure?
    {
      Failure(error)
    }

    function Extract(): T
      requires Success?
    {
      value
    }
  }
}
