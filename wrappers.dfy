/** Optional values and error-carrying results, used for Go's `(T, error)` and `(T, bool)` returns. */
module Wrappers {

  datatype Option<+T> = None | Some(value: T)

  datatype Result<+T, +E> = Ok(value: T) | Err(error: E)
}
