/** Optional values and success-or-error results, as used by the form and its validators. */
module Wrappers {

  /** A value that may be absent (TypeScript's `T | undefined`). */
  datatype Option<+T> = None | Some(value: T)

  /** The outcome of a check: a value, or the error that stopped it. */
  datatype Result<+R, +E> = Ok(value: R) | Err(error: E)
}
