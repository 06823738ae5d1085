/** Failure-compatible wrappers and the Python exceptions the analysis pipeline can
    raise. An exception that the source lets propagate becomes a `Failure` value. */
module Results {

  datatype Option<+T> = None | Some(value: T)

  datatype Result<+T, +E> = Success(value: T) | Failure(error: E) {

    predicate IsFailure() {
      Failure?
    }

    function PropagateFailure<U>(): Result<U, E>
      requires Failure?
    {
      Failure(error)
    }

    function Extract(): T
      requires Success?
    {
      value
    }
  }

  /** The exceptions raised inside the `try` of `main` and reported by its
      `except Exception` handler. */
  datatype PyError =
    | KeyError(key: string)       // a missing dictionary key
    | IndexError                  // an empty list indexed at 0
    | ZeroDivisionError           // a division by a zero word count or duration
    | ClientError(message: string) // an exception raised by the AWS client or the HTTP fetch
}
