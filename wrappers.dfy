/** Failure-carrying result types shared by the adapter's modules. */
module Wrappers {
  /** A value that may be absent; `None` stands for a C# null reference. */
  datatype Option<+T> = None | Some(value: T)

  /** The outcome of an operation that yields a value or raises an error. */
  datatype Result<+T, +E> = Success(value: T) | Failure(error: E)

  /** The outcome of an operation that yields nothing or raises an error. */
  datatype Outcome<+E> = Pass | Fail(error: E)
}
