/** Failure-carrying result types shared by the validators. */
module Wrappers {

  /** A value that may be absent: a nullable column. */
  datatype Option<+T> = None | Some(value: T)

  /** The value of a computation, or the error it throws. */
  datatype Result<+R, +E> = Success(value: R) | Failure(error: E)

  /** A check that passes silently or throws an error. */
  datatype Outcome<+E> = Pass | Fail(error: E)
}
