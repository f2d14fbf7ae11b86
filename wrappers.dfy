/** Option and Result, the two failure-carrying wrappers the model uses. */
module Wrappers {

  datatype Option<+T> = None | Some(value: T)

  /** A Python call that either returns a value or raises with a message. */
  datatype Result<+R, +E> = Ok(value: R) | Err(error: E)
}
