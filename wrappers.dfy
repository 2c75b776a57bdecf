/** Failure-carrying values used across the model. */
module Wrappers {

  /** A value that may be absent: Python's `None` or an unset result. */
  datatype Option<+T> = None | Some(value: T)

  /** The outcome of an operation that either yields a value or raises with a message. */
  datatype Result<+R> = Success(value: R) | Failure(message: string)
}
