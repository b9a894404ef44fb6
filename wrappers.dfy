/** Option and Result: a NULL column value and a stage that can abort. */
module Wrappers {

  /** A nullable value: None plays the part of SQL's NULL. */
  datatype Option<+T> = None | Some(value: T)

  /** The outcome of a step that may fail with an error message. */
  datatype Result<+R, +E> = Success(value: R) | Failure(error: E)
}
