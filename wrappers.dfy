/** Failure-carrying values used throughout the model. */
module Wrappers {

  /** A value or nothing: a Java reference that may be null. */
  datatype Option<T> = None | Some(value: T)

  /** A value or the exception that the Java code would throw instead. */
  datatype Result<T, E> = Ok(value: T) | Err(error: E)
}
