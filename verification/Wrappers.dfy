/** Failure-compatible result types shared by every module of the model. */
module Wrappers {

  datatype Option<+T> = None | Some(value: T)

  /** The Rust `Result`: a value, or the revert reason. Usable with `:-`. */
  datatype Result<+T, +E> = Success(value: T) | Failure(error: E) {
    predicate IsFailure() {
      Failure?
    }

    function PropagateFailure<U>(): Result<U, E>
      requires Failure?
    {
      Failure(error)
    }

    function Extract(): T
      requires Success?
    {
      value
    }
  }

  /** How a call that returns nothing ends: the Rust `Result<(), _>`. Usable with `:-`. */
  datatype Outcome<+E> = Done | Revert(error: E) {
    predicate IsFailure() {
      Revert?
    }

    function PropagateFailure(): Outcome<E>
      requires Revert?
    {
      this
    }
  }

  /** The outcome of a single check, for `:- Need(condition, error);`. */
  datatype Check<+E> = Pass | Fail(error: E) {
    predicate IsFailure() {
      Fail?
    }

    function PropagateFailure<U>(): Result<U, E>
      requires Fail?
    {
      Failure(error)
    }
  }

  function Need<E>(condition: bool, error: E): Check<E> {
    if condition then Pass else Fail(error)
  }
}
