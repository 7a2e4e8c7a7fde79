/** Failure-compatible result types shared by the whole model. */
module Wrappers {

  /** An optional value: stands for a Go value that may be nil. */
  datatype Option<+T> = None | Some(value: T)

  /** The outcome of an operation that either yields a value or fails. */
  datatype Result<+R, +E> = Success(value: R) | Failure(error: E)
}
