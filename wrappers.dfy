/** Optional values and pass/fail outcomes shared by the other modules. */
module Wrappers {

  /** A JavaScript value that may be `undefined` (None). */
  datatype Option<+T> = None | Some(value: T)

  /** The result of a check that either passes or fails with an error. */
  datatype Outcome<+E> = Pass | Fail(error: E)
}
