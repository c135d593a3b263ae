/** Failure-carrying wrappers shared by the authentication and schema models. */
module Results {

  /** A value that may be absent (TypeScript's `T | undefined`). */
  datatype Option<+T> = None | Some(value: T)

  /** The outcome of a call that may fail: a value, or the error it failed with. */
  datatype Result<+T, +E> = Ok(value: T) | Err(error: E)
}
