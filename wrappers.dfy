/** Failure-carrying values used across the model. */
module Wrappers {

  /** A value that may be absent: a tag read that failed, a position not found. */
  datatype Option<+T> = None | Some(value: T)

  /** The outcome of a validation: the accepted value, or the message the program exits with. */
  datatype Result<+R, +E> = Success(value: R) | Failure(error: E)
}
