/** Failure-compatible wrappers used by the handler's pipeline: an optional value
    (JavaScript's `undefined`/`null` versus a value) and a result that carries
    either a value or the reason a stage failed. */
module Wrappers {

  datatype Option<+T> = None | Some(value: T) {

    /** Converts to a Result, failing with `error` when the value is absent. */
    function ToResult<E>(error: E): Result<T, E>
    {
      match this
      case Some(v) => Success(v)
      case None => Failure(error)
    }
  }

  datatype Result<+R, +E> = Success(value: R) | Failure(error: E) {

    predicate IsFailure() {
      Failure?
    }

    function PropagateFailure<U>(): Result<U, E>
      requires Failure?
    {
      Failure(error)
    }

    function Extract(): R
      requires Success?
    {
      value
    }
  }
}
