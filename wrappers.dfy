/** The Option and Outcome datatypes used by the TriState model. */
module Wrappers {

  /** An optional value; `None` plays the part of a nil pointer. */
  datatype Option<+T> = None | Some(value: T)

  /** The result of an operation that reports only an error: `Pass` is a nil error. */
  datatype Outcome<+E> = Pass | Fail(error: E)
}
