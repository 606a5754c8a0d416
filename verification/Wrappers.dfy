/** Option and Result, the two shapes in which Go's nil pointers and error returns appear in this project. */
module Wrappers {

  datatype Option<+T> = None | Some(value: T)

  datatype Result<+T, +E> = Ok(value: T) | Err(error: E)
}
