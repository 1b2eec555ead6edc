/** Option and Result values used wherever the source returns None or raises. */
module Wrappers {

  datatype Option<+T> = None | Some(value: T)

  /** `Err` stands for a Python exception that escapes the modelled call. */
  datatype Result<+T, +E> = Ok(value: T) | Err(error: E)
}
