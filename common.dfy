/** Option and Result values for the model's error paths. */
module Common {

  /** A value that may be absent: a form field or session entry that was not sent. */
  datatype Option<T> = None | Some(value: T)

  /** The outcome of an operation that can fail with an error of type E. */
  datatype Result<T, E> = Ok(value: T) | Err(error: E)
}
