/** Option and Result types used throughout the model in place of Python's
    None, raised exceptions and HTTP error responses. */
module Wrappers {

  datatype Option<+T> = None | Some(value: T)

  datatype Result<+R, +E> = Ok(value: R) | Err(error: E)
}
