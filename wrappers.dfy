/** Option and Result: the two failure-carrying shapes the commands return. */
module Wrappers {

  datatype Option<+T> = None | Some(value: T)

  /** What a command returns: a value, or the error it bubbles up to the top level. */
  datatype Result<+T, +E> = Ok(value: T) | Err(error: E)
}
