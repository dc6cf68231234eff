/** Optional values and results with an error, shared by the engine and the acoustics. */
module Wrappers {

  /** A value that may be absent; stands for a Java reference that may be null. */
  datatype Option<T> = None | Some(value: T)

  /** The outcome of an operation that may fail with an error of type E. */
  datatype Result<T, E> = Success(value: T) | Failure(error: E)
}
