/** Failure-compatible wrappers used throughout the model: `Option` stands for a
    Java reference that may be null, `Result` for a call that may throw. */
module Wrappers {

  datatype Option<+T> = None | Some(value: T) {
    function GetOr(default: T): T {
      match this
      case Some(v) => v
      case None => default
    }
  }

  /** `Failure` carries the message of the exception the source throws. */
  datatype Result<+R> = Success(value: R) | Failure(error: string) {
    predicate IsFailure() {
      Failure?
    }

    function PropagateFailure<U>(): Result<U>
      requires Failure?
    {
      Failure(error)
    }

    function Extract(): R
      requires Success?
    {
      value
    }
  }
}
