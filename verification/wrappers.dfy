/** The optional and failure-carrying values shared by the record store model. */
module Wrappers {

  /** A value that may be absent: an unset query bound, a failed glob. */
  datatype Option<+T> = None | Some(value: T)

  /** The outcome of a store operation: a value, or the reason it failed. */
  datatype Result<+T, +E> = Ok(value: T) | Err(error: E)
}
