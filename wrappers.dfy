/** Optional and fallible values shared by the extractors and the aggregator. */
module Wrappers {

  /** A value that may be absent, like Rust's `Option`. */
  datatype Option<+T> = None | Some(value: T)

  /** The outcome of an operation that may fail with an error value. */
  datatype Result<+R, +E> = Success(value: R) | Failure(error: E)
}
