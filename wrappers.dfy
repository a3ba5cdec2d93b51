/** Failure-carrying results shared by every module of the model. */
module Wrappers {

  /** A value that may be absent (JavaScript `null`/`undefined`). */
  datatype Option<+T> = None | Some(value: T)

  /** The outcome of a computation that may throw: `Failure` carries the
      message of the exception that escapes. */
  datatype Result<+R, +E> = Success(value: R) | Failure(error: E)
}
