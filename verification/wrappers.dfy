/** Optional values and results with an error, as Go expresses them with a nil pointer
    and with an extra `error` return value. */
module Wrappers {

  /** A pointer field that may be nil. */
  datatype Option<+T> = None | Some(value: T)

  /** A value together with an `error` that is nil (Ok) or not (Err). */
  datatype Result<+T, +E> = Ok(value: T) | Err(error: E)
}
