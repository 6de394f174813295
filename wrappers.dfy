/** Option and Result, used wherever the source returns null or throws. */
module Wrappers {

  /** A value that may be absent (the source's `null` / `undefined`). */
  datatype Option<+T> = None | Some(value: T)

  /** Either a value or the error the source would throw instead. */
  datatype Result<+T, +E> = Ok(value: T) | Err(error: E)
}
