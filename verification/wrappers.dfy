/** Failure-carrying datatypes shared by the other modules. */
module Wrappers {

  /** An optional member: `None` is an attribute that was never set. */
  datatype Option<+T> = None | Some(value: T)

  /** The outcome of an operation that may fail with an error value. */
  datatype Result<+R, +E> = Success(value: R) | Failure(error: E)
}
