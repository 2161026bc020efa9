/** Option and Result, the model's stand-ins for Rust's `Option` and for a panic or error return. */
module Wrappers {

  datatype Option<+T> = None | Some(value: T)

  datatype Result<+T, +E> = Ok(value: T) | Err(error: E)
}
