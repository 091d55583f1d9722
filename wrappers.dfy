/** Option and Result datatypes used throughout the model. */
module Wrappers {

  /** A value that may be absent: stands for a Java reference that may be null. */
  datatype Option<+T> = None | Some(value: T)

  /** Either a result or one of a fixed set of errors: stands for a thrown exception. */
  datatype Result<+R, +E> = Success(value: R) | Failure(error: E)
}
