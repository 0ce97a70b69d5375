/** Failure-carrying values shared by the modules of this model: Go's
    `(value, error)` pairs become `Result`, a bare `error` becomes `Status`. */
module Results {

  /** A value that may be absent. */
  datatype Option<+T> = None | Some(value: T)

  /** The value of a successful call, or the error it reported. */
  datatype Result<+T, +E> = Ok(value: T) | Err(error: E)

  /** A call that returns only an `error`: `NoError` stands for a nil error. */
  datatype Status<+E> = NoError | Error(error: E)
}
