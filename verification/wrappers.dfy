/** Option and Result, the two failure-carrying values the renderer and the
    application builder use. */
module Wrappers {

  datatype Option<+T> = None | Some(value: T)

  datatype Result<+T, +E> = Ok(value: T) | Err(error: E)
}
