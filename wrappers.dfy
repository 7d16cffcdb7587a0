/** Option and Result values shared by the modules of this model. */
module Wrappers {

  datatype Option<+T> = None | Some(value: T)

  /** The outcome of an operation that can fail with an error message, as Go's `(T, error)` pairs. */
  datatype Result<+T> = Ok(value: T) | Err(msg: string)
}
