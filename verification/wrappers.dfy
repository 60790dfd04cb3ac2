/** Failure-carrying values used wherever the source raises or returns None. */
module Wrappers {

  datatype Option<+T> = None | Some(value: T)

  /** An operation that either produced a value or raised; the exception is kept
      only as its message, which is all that str(e) exposes to a caller. */
  datatype Result<+T> = Ok(value: T) | Err(message: string)
}
