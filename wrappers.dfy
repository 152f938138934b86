/** Option and Result, used for values that may be absent and for the
    exceptions the modelled code lets propagate to its caller. */
module Wrappers {

  datatype Option<+T> = None | Some(value: T)

  datatype Result<+T, +E> = Ok(value: T) | Err(error: E)
}
