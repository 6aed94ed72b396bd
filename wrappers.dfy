/** Failure-carrying wrappers standing in for the lexer's null pointers and exceptions. */
module Wrappers {

  /** A value or nothing: the model of a pointer that may be null. */
  datatype Option<+T> = None | Some(value: T)

  /** A value or an error: the model of a call that returns or throws. */
  datatype Result<+R, +E> = Ok(value: R) | Err(error: E)

  /** No value or an error: the model of a `void` call that returns or throws. */
  datatype Outcome<+E> = Pass | Fail(error: E)
}
