/** Optional values and error-carrying results, used wherever the Go code
    returns a nil pointer, a zero value meaning "absent", or an `error`. */
module Wrappers {
  datatype Option<T> = None | Some(value: T)

  datatype Result<T, E> = Ok(value: T) | Err(error: E)
}
