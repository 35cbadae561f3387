/** Failure-carrying result types used in place of Java's null returns and exceptions. */
module Wrappers {

  /** A value or nothing: stands for a Java reference that may be null. */
  datatype Option<+T> = None | Some(value: T)

  /** A value or an error: stands for a call that returns normally or throws. */
  datatype Result<+R, +E> = Success(value: R) | Failure(error: E)

  /** Normal return or an error, for Java methods declared `void ... throws E`. */
  datatype Outcome<+E> = Pass | Fail(error: E)
}
