/** The two failure-carrying datatypes the models share. */
module Wrappers {

  /** A value that may be absent. */
  datatype Option<+T> = None | Some(value: T)

  /** The outcome of an operation that throws in the program: `Err` names the exception. */
  datatype Result<+T, +E> = Ok(value: T) | Err(error: E)
}
