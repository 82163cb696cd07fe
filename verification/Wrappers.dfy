/** The usual option and result types. */
module Wrappers {

  datatype Option<+T> = None | Some(value: T)

  /** A call that may raise an exception. */
  datatype Outcome<+T> = Returns(value: T) | Raises
}
