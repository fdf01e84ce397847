/** Option, and the outcome of evaluating a Python expression that may raise. */
module Wrappers {

  datatype Option<+T> = None | Some(value: T) {
    function GetOr(default: T): T {
      match this
      case Some(v) => v
      case None => default
    }
  }

  /** A Python evaluation either returns a value or raises an exception.
      Failure-compatible, so `var x :- e; ...` propagates the exception. */
  datatype Py<+T> = Returned(value: T) | Raised {
    predicate IsFailure() {
      Raised?
    }

    function PropagateFailure<U>(): Py<U>
      requires Raised?
    {
      Raised
    }

    function Extract(): T
      requires Returned?
    {
      value
    }
  }
}
