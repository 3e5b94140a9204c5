/** Option and Result values standing for Java's null returns and thrown exceptions. */
module Wrappers {

  datatype Option<+T> = None | Some(value: T)

  /** `Err` carries the exception the Java code throws; `Ok` the value it returns. */
  datatype Result<+T, +E> = Ok(value: T) | Err(error: E)

  /** The outcome of a Java method that returns nothing of interest but may throw. */
  datatype Outcome<+E> = Pass | Fail(error: E)
}
