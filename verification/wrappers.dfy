/** Failure-carrying datatypes shared by every part of the model. */
module Wrappers {

  /** A value that may be absent (Python's `None`). */
  datatype Option<+T> = None | Some(value: T)

  /** A value or an error; the error stands for a raised Python exception. */
  datatype Result<+T, +E> = Ok(value: T) | Err(error: E)

  /** What one call into code outside the model did: it returned a value or raised
      an exception whose text is `error`. */
  datatype Attempt<+T> = Returns(value: T) | Raises(error: string)
}
