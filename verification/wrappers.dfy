/** Failure-compatible wrappers used throughout the model: `Option` for values
    that may be absent (an omitted XML element, a Go `error` that is nil) and
    `Result` for decoders that either produce a value or fail with an error. */
module Wrappers {

  datatype Option<+T> = None | Some(value: T)

  datatype Result<+R, +E> = Success(value: R) | Failure(error: E)
}
