/** The optional and error-or-value results the bridge model returns. */
module Results {

  /** A value that may be absent: the channel decoder's answer. */
  datatype Option<T> = None | Some(value: T)

  /** The outcome of an operation that may throw: the new value or the error raised. */
  datatype Result<T, E> = Ok(value: T) | Err(error: E)
}
