/** Wrappers standing in for Java's null, Optional and exceptions. */
module Wrappers {

  /** `Optional<T>` / a nullable reference. */
  datatype Option<+T> = None | Some(value: T)

  /** A value, or the exception the Java code throws instead of returning it. */
  datatype Result<+R, +E> = Success(value: R) | Failure(error: E)

  /** A `void` call that either completes or throws. */
  datatype Status<+E> = Done | Fail(error: E)
}
