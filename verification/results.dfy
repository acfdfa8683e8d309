/** Failure-carrying wrappers shared by the rest of the model. */
module Results {

  /** A value that may be absent: a missing form field, a NULL column, no match. */
  datatype Option<+T> = None | Some(value: T)

  /** The outcome of an operation the system can reject: a value, or the error it reports. */
  datatype Result<+T, +E> = Ok(value: T) | Err(error: E)
}
