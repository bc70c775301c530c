/** The answer of an operation that can fail. */
module Results {
  datatype Result<+T, +E> = Ok(value: T) | Err(error: E)
}
