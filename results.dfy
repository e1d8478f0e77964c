/** Optional values and the (value, error) pairs that Go functions return. */
module Results {

  datatype Option<+T> = None | Some(value: T)

  /** A Go `(T, error)` return: exactly one of a value or an error. */
  datatype Result<+T, +E> = Ok(value: T) | Err(error: E)
}
