/** Optional values: the `null` / `undefined` of the handlers' inputs and results. */
module Wrappers {

  datatype Option<+T> = None | Some(value: T)

  /** The outcome of a validation step: a value, or the failure to report. */
  datatype Result<+T, +E> = Success(value: T) | Failure(error: E)
}
