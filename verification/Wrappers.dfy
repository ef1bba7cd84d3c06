/** Failure-compatible results shared by every codec. */
module Wrappers {

  datatype Option<+T> = None | Some(value: T)

  // Error texts are not modelled: a failure carries no payload.
  datatype Result<+T> = Success(value: T) | Failure
  {
    predicate IsFailure() {
      Failure?
    }

    function PropagateFailure<U>(): Result<U>
      requires Failure?
    {
      Failure
    }

    function Extract(): T
      requires Success?
    {
      value
    }
  }
}
