/** Failure-carrying values used where the translator returns null or false. */
module Wrappers {

  /** A value that may be missing, standing in for a null reference. */
  datatype Option<+T> = None | Some(value: T)

  /** Either a computed value or the reason the computation stopped. */
  datatype Result<+R, +E> = Success(value: R) | Failure(error: E)
}
