/** Optional values and success-or-error outcomes shared by the dashboard model. */
module Wrappers {

  /** A value that pandas may report as missing (NaN / None). */
  datatype Option<+T> = None | Some(value: T)

  /** The outcome of a step that can stop the page with an error. */
  datatype Result<+T, +E> = Success(value: T) | Failure(error: E)
}
