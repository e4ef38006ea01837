/** Result types shared by every part of the model. */
module Base {
  datatype Option<+T> = None | Some(value: T)

  /** A Python return value, or the exception that replaced it. */
  datatype Result<+T, +E> = Ok(value: T) | Err(error: E)
}
