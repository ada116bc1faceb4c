/** Failure-compatible result types shared by the modules of this project. */
module Wrappers {

  datatype Option<+T> = None | Some(value: T)

  /** A computation that yields a value or an error (a thrown exception in the source). */
  datatype Result<+T, +E> = Ok(value: T) | Err(error: E)

  /** A computation without a value that passes or fails with an error. */
  datatype Outcome<+E> = Pass | Fail(error: E)
}
