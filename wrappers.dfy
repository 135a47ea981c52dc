/** Option and Result, used for the analyzers' missing values and failures. */
module Wrappers {

  /** A value that may be missing (the analyzers' None / NaN / NaT). */
  datatype Option<+T> = None | Some(value: T)

  /** The outcome of an analysis that can raise. */
  datatype Result<+T, +E> = Success(value: T) | Failure(error: E)
}
