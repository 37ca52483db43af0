/** The ways a Go call can end, as values. */
module Results {

  /** A value that may be absent (a nil pointer, a missing header). */
  datatype Option<+T> = None | Some(value: T)

  /** The `(value, error)` pair a Go function returns: either the value with a nil
      error, or a non-nil error whose message is kept. */
  datatype Result<+T> = Ok(value: T) | Err(error: string)

  /** A Go call that either returns normally or panics with a message. */
  datatype Outcome<+T> = Returned(result: T) | Panicked(message: string)
}
