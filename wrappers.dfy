/** Option and Result types shared by the modules of this model. */
module Wrappers {

  /** A value that may be absent (JavaScript `undefined`/`null`). */
  datatype Option<+T> = None | Some(value: T)

  /** The result of an operation that may throw: `Err` carries the error's message. */
  datatype Result<+T> = Ok(value: T) | Err(error: string)
}
