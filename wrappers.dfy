/** Failure-compatible wrappers: a nullable reference becomes an Option, an
    exception becomes the Failure or Fail case of a Result or Outcome. */
module Wrappers {

  datatype Option<+T> = None | Some(value: T)

  datatype Result<+R, +E> = Success(value: R) | Failure(error: E)

  datatype Outcome<+E> = Pass | Fail(error: E)
}
