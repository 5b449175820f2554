/** Option and Result, the two failure-carrying wrappers the model uses. */
module Wrappers {

  /** A value that may be missing: SQL NULL, a missing JSON key, a missing argument. */
  datatype Option<+T> = None | Some(value: T)

  /** The outcome of an operation that may abort with an error. */
  datatype Result<+T, +E> = Ok(value: T) | Err(error: E)
}
