/** Failure-compatible wrappers used across the model: `Option` for Python's
    `None`-able values and `Result` for calls that may raise. */
module Wrappers {

  datatype Option<+T> = None | Some(value: T) {

    predicate IsFailure() {
      None?
    }

    function PropagateFailure<U>(): Option<U>
      requires None?
    {
      None
    }

    function Extract(): T
      requires Some?
    {
      value
    }

    /** Applies `f` to the wrapped value, keeping `None` as it is. */
    function Map<U>(f: T -> U): (r: Option<U>)
      ensures r.Some? <==> Some?
    {
      match this
      case Some(v) => Some(f(v))
      case None => None
    }
  }

  datatype Result<+R, +E> = Success(value: R) | Failure(error: E) {

    predicate IsFailure() {
      Failure?
    }

    function PropagateFailure<U>(): Result<U, E>
      requires Failure?
    {
      Failure(this.error)
    }

    function Extract(): R
      requires Success?
    {
      value
    }
  }
}
