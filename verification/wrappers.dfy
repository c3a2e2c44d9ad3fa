/** Option and Result, standing for JavaScript's `undefined` and for thrown errors. */
module Wrappers {
  datatype Option<+T> = None | Some(value: T)

  datatype Result<+T, +E> = Ok(value: T) | Err(error: E)
}
