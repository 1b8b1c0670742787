/** Result type used for the operations that raise in the source. */
module Wrappers {
  datatype Result<T, E> = Success(value: T) | Failure(error: E)
}
