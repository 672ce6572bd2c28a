/** Option and Result, the failure-compatible wrappers the rest of the model uses.
    A Python exception that the code lets escape (a KeyError from a dict
    subscription) becomes a Failure; a value the code returns becomes a Success. */
module Wrappers {

  datatype Option<+T> = None | Some(value: T)

  datatype Result<+R, +E> = Success(value: R) | Failure(error: E) {

    predicate IsFailure() {
      Failure?
    }

    function PropagateFailure<U>(): Result<U, E>
      requires Failure?
    {
      Failure(error)
    }

    function Extract(): R
      requires Success?
    {
      value
    }
  }
}
