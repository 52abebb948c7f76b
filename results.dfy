/** Success/failure values standing in for Python's exceptions and `None`. */
module Results {

  datatype Option<+T> = None | Some(value: T)

  /** `Err` carries which exception the source would raise at that point. */
  datatype Result<+T, +E> = Ok(value: T) | Err(error: E)

}
