/** Failure-carrying datatypes shared by every module of the model. */
module Wrappers {

  /** A value that may be absent: Python's `None`, TypeScript's `undefined`/`null`. */
  datatype Option<+T> = None | Some(value: T) {

    /** The carried value, or `default` when there is none. */
    function GetOr(default: T): T {
      match this
      case Some(v) => v
      case None => default
    }
  }

  /** Outcome of an operation that can fail with an HTTP error (status and detail). */
  datatype HttpError = HttpError(status: nat, detail: string)

  datatype Result<+R> = Ok(value: R) | Err(error: HttpError)
}
