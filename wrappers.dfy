/** Option and Result, used for the layout lookups that can fail and for the
    exceptions the binding raises. */
module Wrappers {

  datatype Option<+T> = None | Some(value: T)

  datatype Result<+T, +E> = Ok(value: T) | Err(error: E)
}
