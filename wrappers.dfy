/** Missing values and failures, as the data frames of the pipeline carry them. */
module Wrappers {

  /** A cell that may be undefined (pandas NaN). */
  datatype Option<+T> = None | Some(value: T) {

    /** The value, or `default` when undefined (pandas `fillna(default)`). */
    function GetOr(default: T): T {
      match this
      case Some(v) => v
      case None => default
    }
  }

  /** The outcome of a step that may raise. */
  datatype Result<+R, +E> = Success(value: R) | Failure(error: E)
}
