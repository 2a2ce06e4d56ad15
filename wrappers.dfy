/** Failure-carrying values shared by the relay and client models. */
module Wrappers {

  /** A value that may be absent: Java's `null` return or a failed lookup. */
  datatype Option<+T> = None | Some(value: T)

  /** A value, or the reason it could not be produced. */
  datatype Result<+T, +E> = Success(value: T) | Failure(error: E)
}
