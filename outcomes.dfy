/** Failure-carrying values shared by every module of the model. */
module Outcomes {

  /** An optional value (Python's `None` or a value). */
  datatype Option<+T> = None | Some(value: T)

  /** The value of an operation, or the exception that aborts it. */
  datatype Result<+T, +E> = Ok(value: T) | Err(error: E)
}
