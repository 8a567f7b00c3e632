/** Failure-compatible wrappers used by the settings model. */
module Wrappers {

  /** A value that may be absent: the model of a C# reference that may be null. */
  datatype Option<+T> = None | Some(value: T)

  /** The outcome of an operation that either succeeds or raises an error. */
  datatype Outcome<+E> = Pass | Fail(error: E)
}
