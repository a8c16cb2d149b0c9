/** Failure-carrying results used by the model in place of Java's exceptions. */
module Wrappers {

  datatype Option<+T> = None | Some(value: T)

  /** A value or the error that replaced it (an SQLException in the source). */
  datatype Result<+T, +E> = Ok(value: T) | Err(error: E)

  /** Success or the error of an operation that returns nothing (a `void ... throws`). */
  datatype Outcome<+E> = Pass | Fail(error: E)
}
