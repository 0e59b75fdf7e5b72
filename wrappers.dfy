/** Absence and failure as values: Java's null and thrown exceptions. */
module Wrappers {

  /** A nullable Java reference: None stands for null. */
  datatype Option<+T> = None | Some(value: T)

  /** The outcome of a call that may throw: Failure carries the exception. */
  datatype Result<+R, +E> = Success(value: R) | Failure(error: E)
}
