/** Optional values and results, used for SQL NULLs, missing rows and error paths. */
module Util {

  /** A value that may be absent: a NULL column, a missing row, an empty cell. */
  datatype Option<+T> = None | Some(value: T)

  /** The outcome of an action that either succeeds with a value or is rejected with a reason. */
  datatype Result<+T, +E> = Ok(value: T) | Err(error: E)
}
