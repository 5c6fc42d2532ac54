/** Result types shared by the model. */
module Wrappers {

  /** A value that may be absent: the handler's `Optional[...]` returns. */
  datatype Option<+T> = None | Some(value: T)

  /** The outcome of a check that either passes or fails with a reason. */
  datatype Outcome<+E> = Pass | Fail(error: E)
}
