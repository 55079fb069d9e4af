/** Option and Result datatypes shared by the gateway model. */
module Wrappers {

  /** A value that may be absent (Java's nullable reference). */
  datatype Option<+T> = None | Some(value: T)

  /** The outcome of a block that either completes with a value or throws. */
  datatype Result<+R, +E> = Success(value: R) | Failure(error: E)
}
