/** Option and Result: the source's `None` and its raised exceptions, as values. */
module Wrappers {
  datatype Option<T> = None | Some(value: T)

  /** A computation that either produced a value or raised an error with a message. */
  datatype Result<T> = Ok(value: T) | Err(error: string)
}
