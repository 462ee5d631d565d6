/** Failure-carrying values shared by every module of the model. */
module Wrappers {

  /** A value that may be absent: Python's None, JavaScript's null/undefined. */
  datatype Option<+T> = None | Some(value: T)

  /** The outcome of an operation that may raise: either a value or an error message. */
  datatype Result<+T> = Ok(value: T) | Err(msg: string)
}
