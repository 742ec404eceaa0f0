/** Option and Result, the two failure-carrying shapes the model uses. */
module Wrappers {
  /** A JavaScript value that may be `null` or `undefined` (None) or present (Some). */
  datatype Option<+T> = None | Some(value: T)

  /** The outcome of a request handler or adapter: a value, or an error. */
  datatype Result<+T, +E> = Success(value: T) | Failure(error: E)
}
