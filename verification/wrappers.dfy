/** Failure-carrying wrappers shared by the whole model. */
module Wrappers {

  /** An optional value: a square or "pass", a chosen move or "no move". */
  datatype Option<+T> = None | Some(value: T)

  /** The outcome of an operation that can raise: a value, or the error it raised. */
  datatype Result<+T, +E> = Ok(value: T) | Err(error: E)
}
