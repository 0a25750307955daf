/** Option and Result: the values and error paths shared by the other modules. */
module Common {

  datatype Option<+T> = None | Some(value: T)

  /** The outcome of an operation that Python would end by raising. */
  datatype Result<+T, +E> = Ok(value: T) | Err(error: E)
}
