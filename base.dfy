/** Option and Result: the absent value and the failure path used across the model. */
module Base {

  datatype Option<T> = None | Some(value: T)

  /** A computation that either succeeds or fails with the message a Python exception carries. */
  datatype Result<T> = Ok(value: T) | Err(message: string)
}
