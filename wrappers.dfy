/** Optional values and results, for Python's `None` and for calls that raise. */
module Wrappers {

  datatype Option<+T> = None | Some(value: T)

  /** `Err` stands for a raised exception; `error` says what the caller may learn of it. */
  datatype Result<+T, +E> = Ok(value: T) | Err(error: E)
}
