/** Option and Result values shared by every module of the model. */
module Wrappers {

  datatype Option<+T> = None | Some(value: T)

  /** The value of an operation that either succeeds or fails with an error. */
  datatype Result<+T, +E> = Ok(value: T) | Err(error: E)

  /** An HTTP error status raised by a handler, with its detail message. */
  datatype HttpError = HttpError(status: nat, detail: string)
}
