/** The outcome of an operation that can fail with a value of type E. */
module Wrappers {
  datatype Result<+T, +E> = Ok(value: T) | Err(error: E)
}
