/** Failure-compatible result types shared by the scraper model. */
module Wrappers {

  /** A value that may be absent: an unset object key, a regex that found nothing. */
  datatype Option<+T> = None | Some(value: T)

  /** A value or the message of the error that prevented it. Usable with `:-`. */
  datatype Result<+R> = Success(value: R) | Failure(error: string) {

    predicate IsFailure() {
      Failure?
    }

    function PropagateFailure<U>(): Result<U>
      requires Failure?
    {
      Failure(error)
    }

    function Extract(): R
      requires Success?
    {
      value
    }
  }

  /** An action that either completes or fails with a message. */
  datatype Outcome = Pass | Fail(error: string)
}
