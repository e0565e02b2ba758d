/** Python exceptions raised by the modelled code, and the result types that carry them. */
module Results {

  /** The exception classes the modelled code raises; `arg` is the name or key that the
      exception message mentions, or "" when the message names none. */
  datatype Exception =
    | TypeError(arg: string)
    | KeyError(arg: string)
    | ValueError(arg: string)

  datatype Option<+T> = None | Some(value: T)

  /** A call that returns a value or raises. */
  datatype Result<+T> = Ok(value: T) | Err(error: Exception)

  /** A call that returns None or raises. */
  datatype Outcome = Pass | Fail(error: Exception)
}
