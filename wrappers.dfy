/** Absent values and thrown errors of the original, as values. */
module Wrappers {

  /** `T | undefined` in the original. */
  datatype Option<+T> = None | Some(value: T)

  /** A call that either returns a value or throws an error. */
  datatype Result<+T, +E> = Success(value: T) | Failure(error: E)
}
