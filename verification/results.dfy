/**
 The library signals every failure by raising an exception. This module
 replaces exceptions with a failure-compatible `Result` value, so that a
 failing call returns the kind of error instead of unwinding.
 */
module Results {

  /** The two error kinds the library can raise. `InvalidArgument` carries the
      message the library attaches to its `ValueError`; `OutOfRange` is the
      `IndexError` a list raises on a bad index. */
  datatype Error = InvalidArgument(msg: string) | OutOfRange

  datatype Result<+T> = Ok(value: T) | Failure(error: Error) {

    predicate IsFailure() {
      Failure?
    }

    function PropagateFailure<U>(): Result<U>
      requires Failure?
    {
      Failure(error)
    }

    function Extract(): T
      requires Ok?
    {
      value
    }
  }
}
