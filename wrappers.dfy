/** Option and Result: the outcomes of lookups that may miss and of calls that may raise. */
module Wrappers {

  datatype Option<+T> = None | Some(value: T)

  /** A call that either returns a value or raises (the error names the Python exception). */
  datatype Result<+T> = Success(value: T) | Failure(error: string)
}
