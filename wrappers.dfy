/** Option and Result, used for the values the scripts may lack and for the
    exceptions they may raise. */
module Wrappers {

  datatype Option<+T> = None | Some(value: T)

  datatype Result<+T, +E> = Ok(value: T) | Err(error: E)
}
