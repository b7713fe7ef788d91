/** Option and Result values shared by every module of the model. */
module Wrappers {

  /** A value that may be absent (the source's `null`/`undefined`). */
  datatype Option<T> = None | Some(value: T)

  /** A value or the error that replaced it (the source's thrown exceptions). */
  datatype Result<T, E> = Ok(value: T) | Err(error: E)
}
