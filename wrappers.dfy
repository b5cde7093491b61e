/** Option and Result, the two failure-carrying shapes the pipeline needs. */
module Wrappers {

  /** A value that may be missing: a NaN/None spreadsheet cell, an unresolved column. */
  datatype Option<+T> = None | Some(value: T) {
    function GetOr(default: T): T {
      match this
      case Some(v) => v
      case None => default
    }
  }

  /** The outcome of an operation that can raise. */
  datatype Result<+R, +E> = Success(value: R) | Failure(error: E)
}
