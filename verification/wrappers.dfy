/** Failure-carrying result types shared by every module of the model. */
module Wrappers {

  /** An optional value: Python's `None` or a present value. */
  datatype Option<+T> = None | Some(value: T)

  /** A computation that either succeeds with a value or raises an error. */
  datatype Result<+R, +E> = Success(value: R) | Failure(error: E)
}
