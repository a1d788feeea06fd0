/** Option and Result values used wherever the source returns `undefined`, `null` or throws. */
module Wrappers {

  datatype Option<+T> = None | Some(value: T)

  /** `Err` carries the error code the source's `throw new Error(code)` would raise. */
  datatype Result<+T, +E> = Ok(value: T) | Err(error: E)
}
