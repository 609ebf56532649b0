/** Failure-compatible wrappers shared by every module: `Option` for a value that
    may be absent and `Result` for an operation that either succeeds or reports an
    error (the binding's `std::nullopt` plus pending JavaScript exception). */
module Wrappers {

  datatype Option<+T> = None | Some(value: T)

  datatype Result<+T, +E> = Success(value: T) | Failure(error: E) {

    predicate IsFailure() {
      Failure?
    }

    function PropagateFailure<U>(): Result<U, E>
      requires Failure?
    {
      Failure(error)
    }

    function Extract(): T
      requires Success?
    {
      value
    }
  }
}
