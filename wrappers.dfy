/** Option and outcome datatypes shared by the other modules. */
module Wrappers {

  /** An optional value: Python's `X | None`. */
  datatype Option<+T> = None | Some(value: T)

  /** The outcome of an operation that may raise: `Fail` carries the exception. */
  datatype Outcome<+E> = Pass | Fail(error: E)
}
