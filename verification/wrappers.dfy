/** Option and Result, used for the request fields that may be absent and for the
    routes' outcomes (a value on success, an error kind otherwise). */
module Wrappers {

  datatype Option<+T> = None | Some(value: T)

  datatype Result<+T, +E> = Ok(value: T) | Err(error: E)
}
