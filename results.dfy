/** Failure-carrying return values, standing in for Go's `(T, error)` pairs
    and for a bare `error` return. Error values are their message text. */
module Results {

  /** A value, or the text of the error that was returned instead of it. */
  datatype Result<+T> = Ok(value: T) | Err(error: string)

  /** A value that may be absent. */
  datatype Option<+T> = None | Some(value: T)

  /** A bare Go `error`: `nil` is Pass, anything else is Fail with its text. */
  datatype Outcome = Pass | Fail(error: string)
}
