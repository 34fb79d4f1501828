/** Option and Result, the failure-compatible wrappers the model uses for
    Python's `None` and for the errors the source raises. */
module Wrappers {

  datatype Option<+T> = None | Some(value: T)

  datatype Result<+T, +E> = Ok(value: T) | Err(error: E)
}
