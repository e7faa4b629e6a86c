/** Failure-carrying results shared by every module of the model. */
module Outcomes {

  /** An operation that either produces a value or fails with a message
      (a thrown C++ exception's what(), or a rejected JavaScript Error's message). */
  datatype Result<+T, +E> = Ok(value: T) | Err(error: E)

  /** A value that may be absent (JavaScript undefined or null, an unmatched regex). */
  datatype Option<+T> = None | Some(value: T)
}
