/** Small value wrappers shared by the modules of this model. */
module Base {

  /** Python's `None` or a present value. */
  datatype Option<+T> = None | Some(value: T)

  /** A value, or the reason it was refused. */
  datatype Result<+T, +E> = Ok(value: T) | Err(error: E)
}
