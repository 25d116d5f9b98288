/** Optional values and results with an error path, shared by every module. */
module Wrappers {

  /** A value that may be absent: JavaScript's `undefined`/`null` on an optional field. */
  datatype Option<+T> = None | Some(value: T)

  /** The outcome of an operation that can throw: a value, or the error it fails with. */
  datatype Result<+T, +E> = Ok(value: T) | Err(error: E)
}
