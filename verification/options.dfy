/** Optional values and results that carry either a value or an error. */
module Options {

  /** A value that may be missing: `null` in the original program. */
  datatype Option<+T> = None | Some(value: T)

  /** The outcome of an operation that can fail without changing anything. */
  datatype Result<+T, +E> = Ok(value: T) | Err(error: E)
}
