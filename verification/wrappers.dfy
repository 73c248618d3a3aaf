/** Failure-compatible wrappers: `Option` for Python's `None`-or-value returns,
    `Result` for calls that either return or raise. */
module Wrappers {

  datatype Option<+T> = None | Some(value: T)

  datatype Result<+R, +E> = Success(value: R) | Failure(error: E)
}
