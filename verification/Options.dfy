module Options {
  datatype Option<+T> = None | Some(value: T)

  /** A value, or the refusal a caller gets instead. */
  datatype Result<+T, +E> = Ok(value: T) | Err(error: E)
}
