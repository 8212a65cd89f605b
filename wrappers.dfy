/** Option and Result, for the error paths of the grammar reader, the
    parser builder and the driver. */
module Wrappers {

  datatype Option<T> = None | Some(value: T)

  datatype Result<T, E> = Ok(value: T) | Err(error: E)
}
