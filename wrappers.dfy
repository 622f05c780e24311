/** Small failure-carrying datatypes shared by the ledger and the category feed. */
module Wrappers {

  /** A value that may be absent (an `undefined` field in the stored document). */
  datatype Option<+T> = None | Some(value: T)

  /** The value of an operation that either yields a result or throws an error of kind `E`. */
  datatype Result<+R, +E> = Success(value: R) | Failure(error: E)

  /** The value of an operation that returns nothing or throws an error of kind `E`. */
  datatype Outcome<+E> = Pass | Fail(error: E)
}
