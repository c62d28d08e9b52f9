/** Option and Result, for empty spreadsheet cells and for the exceptions the
    converter lets propagate. */
module Wrappers {

  datatype Option<+T> = None | Some(value: T)

  datatype Result<+T, +E> = Ok(value: T) | Err(error: E)
}
