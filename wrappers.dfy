/** Failure-compatible wrappers shared by the other modules. */
module Wrappers {

  /** A value that may be absent (`None` in Python, `null`/`undefined` in TypeScript). */
  datatype Option<+T> = None | Some(value: T)

  /** The outcome of an operation that may raise instead of returning. */
  datatype Result<+R, +E> = Ok(value: R) | Err(error: E)
}
