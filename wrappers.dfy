/** Option and Result datatypes: Java's `Optional`, nullable arguments and
    exception-signalling returns. */
module Wrappers {

  /** `Optional<T>` of the Java code, and also a Java reference that may be null. */
  datatype Option<+T> = None | Some(value: T)

  /** A value, or the error the Java code would have thrown instead. */
  datatype Result<+T, +E> = Success(value: T) | Failure(error: E)

  /** Success without a value (a `void` method that may throw). */
  datatype Outcome<+E> = Pass | Fail(error: E)
}
