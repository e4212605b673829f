/** Option and Result, the two failure-carrying shapes the model uses. */
module Wrappers {

  /** A JavaScript value that may be `null`/`undefined` (`None`) or present. */
  datatype Option<+T> = None | Some(value: T)

  /** The outcome of an operation that may throw: `Failure` carries what was thrown. */
  datatype Result<+R, +E> = Success(value: R) | Failure(error: E)
}
