/** Optional values and results shared by the path and archiver modules. */
module Outcomes {

  /** A value that may be absent: a failed lookup or a failed host call. */
  datatype Option<+T> = None | Some(value: T)

  /** The outcome of an operation that can fail with an error of type E. */
  datatype Result<+T, +E> = Ok(value: T) | Err(error: E)
}
