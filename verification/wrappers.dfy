/** Failure-compatible result types shared by the storefront model. */
module Wrappers {

  datatype Option<+T> = None | Some(value: T)

  /** A check that either passes or reports one error. */
  datatype Outcome<+E> = Pass | Fail(error: E)

  /** A computation that yields a value or reports one error. */
  datatype Result<+R, +E> = Success(value: R) | Failure(error: E)
}
