/** The outcome of an operation that the original code can abandon by raising an exception. */
module Results {

  datatype Result<+T, +E> = Ok(value: T) | Err(error: E)

}
