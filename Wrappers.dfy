/** Option, Result and Outcome: the Java code's null returns, thrown exceptions and void checks that throw. */
module Wrappers {

  /** A value that may be absent (Java `null` or an empty `Optional`). */
  datatype Option<+T> = None | Some(value: T)

  /** A value, or the exception that was thrown instead of returning it. */
  datatype Result<+R, +E> = Success(value: R) | Failure(error: E)

  /** The outcome of a `void` check that either returns normally or throws. */
  datatype Outcome<+E> = Pass | Fail(error: E)
}
