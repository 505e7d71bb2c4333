/** Option and Result, used for absent fields and for the parser's thrown errors. */
module Wrappers {

  datatype Option<+T> = None | Some(value: T)

  /** `Err` stands for an exception thrown by the source; nothing is returned with it. */
  datatype Result<+T, +E> = Ok(value: T) | Err(error: E)
}
