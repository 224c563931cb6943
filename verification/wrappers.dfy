/** Failure-compatible wrappers shared by the other modules. */
module Wrappers {

  /** An optional value: `None` where Python would have nothing to return. */
  datatype Option<+T> = None | Some(value: T)

  /** A value or the error that Python would have raised instead of returning it. */
  datatype Result<+T, +E> = Ok(value: T) | Err(error: E)
}
