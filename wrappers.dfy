/** Small failure-compatible datatypes shared by the model.
    Option stands for a Kotlin nullable value; Outcome for a call that either
    returns a value or throws an exception. */
module Wrappers {

  /** A Kotlin nullable value: `None` is `null`. */
  datatype Option<+T> = None | Some(value: T) {

    /** The Kotlin elvis operator `this ?: default`. */
    function GetOr(default: T): T {
      match this
      case Some(v) => v
      case None => default
    }
  }

  /** The result of a call that may throw: `Raised` is an exception. */
  datatype Outcome<+T> = Done(value: T) | Raised {

    predicate IsFailure() {
      Raised?
    }

    function PropagateFailure<U>(): Outcome<U>
      requires Raised?
    {
      Raised
    }

    function Extract(): T
      requires Done?
    {
      value
    }
  }
}
