/** The Option and Result datatypes shared by the other modules. */
module Wrappers {

  datatype Option<+T> = None | Some(value: T)

  /** A value or the error that an operation returned instead of it. */
  datatype Result<+R, +E> = Success(value: R) | Failure(error: E)
}
