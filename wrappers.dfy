/** Helper datatypes for absent values and failing handlers. */
module Wrappers {

  /** A value that may be absent (Python's `None`). */
  datatype Option<+T> = None | Some(value: T)

  /** The result of a handler that either completes or raises an error. */
  datatype Outcome<+E> = Pass | Fail(error: E)
}
