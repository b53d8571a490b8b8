/** Failure-compatible result types shared by the whole model.

    Python's `None` becomes `Option.None`; an exception the library lets escape
    becomes `Result.Failure` carrying the Python exception class that would be
    raised. */
module Wrappers {

  datatype Option<+T> = None | Some(value: T) {

    /** The value, or `default` when absent (Python's `x if x is not None else default`). */
    function GetOr(default: T): T {
      match this
      case Some(v) => v
      case None => default
    }
  }

  /** The Python exception classes the modelled code can raise. */
  datatype PyError = KeyError | ValueError | IndexError | TypeError

  datatype Result<+R> = Success(value: R) | Failure(error: PyError) {

    predicate IsFailure() {
      Failure?
    }

    function PropagateFailure<U>(): Result<U>
      requires Failure?
    {
      Failure(error)
    }

    function Extract(): R
      requires Success?
    {
      value
    }
  }
}
