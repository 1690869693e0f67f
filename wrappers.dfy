/** Optional values and pass/fail outcomes used throughout the model. */
module Wrappers {

  /** A value that may be absent. */
  datatype Option<+T> = None | Some(value: T)

  /** The outcome of an operation that either succeeds with nothing to return or fails with an error. */
  datatype Outcome<+E> = Pass | Fail(error: E)
}
