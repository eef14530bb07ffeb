/** Optional values and the outcome of a call that may raise an exception. */
module Outcomes {

  /** A value that may be absent (the source's `null`). */
  datatype Option<+T> = None | Some(value: T) {

    /** The value, or `default` when absent (the C# `??` operator). */
    function GetOr(default: T): T {
      match this
      case Some(v) => v
      case None => default
    }
  }

  /** The outcome of a collaborator call: it returns a value or raises an exception. */
  datatype Attempt<+T> = Done(value: T) | Raised {

    predicate IsFailure() {
      Raised?
    }

    function PropagateFailure<U>(): Attempt<U>
      requires Raised?
    {
      Raised
    }

    function Extract(): T
      requires Done?
    {
      value
    }
  }
}
