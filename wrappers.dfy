/** Option and Result for the source's `None` returns and caught exceptions. */
module Wrappers {

  /** A value that may be absent (Python's `None`). */
  datatype Option<+T> = None | Some(value: T)

  /** The outcome of a call into a collaborator that may raise; `Err` carries `str(e)`. */
  datatype Result<+T> = Ok(value: T) | Err(error: string)
}
