/** Failure-carrying values used in place of JavaScript's `undefined`,
    rejected promises and thrown errors. */
module Wrappers {

  /** A JavaScript value that may be `undefined` (or `null`). */
  datatype Option<+T> = None | Some(value: T)

  /** A settled promise: resolved with a value, or rejected with an error. */
  datatype Result<+T, +E> = Success(value: T) | Failure(error: E)

  /** A settled promise whose resolved value is not used. */
  datatype Outcome<+E> = Pass | Fail(error: E)
}
