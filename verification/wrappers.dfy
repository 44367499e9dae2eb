/** Failure-carrying results: the script either prints a string or dies with an error. */
module Wrappers {

  /** A value that may be missing, as `parseInt` may yield no number. */
  datatype Option<+T> = None | Some(value: T)

  /** The outcome of one run of the script. */
  datatype Result<+R, +E> = Success(value: R) | Failure(error: E)
}
