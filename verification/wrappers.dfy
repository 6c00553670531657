/** Optional values and success/failure results, used in place of JavaScript's
    `undefined`/`null` and thrown exceptions. */
module Wrappers {

  /** A value that may be absent (`undefined` or `null` in the source). */
  datatype Option<+T> = None | Some(value: T)

  /** The outcome of an operation that can throw: a value, or the error it threw. */
  datatype Result<+R, +E> = Success(value: R) | Failure(error: E)
}
