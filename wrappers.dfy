/** Small failure-compatible datatypes shared by the modules of the model. */
module Wrappers {

  /** A value that may be absent: JavaScript's `undefined` / `null`. */
  datatype Option<+T> = None | Some(value: T)

  /** The outcome of an ordered validation chain: either the user may go on,
      or the first check that failed is reported. */
  datatype Verdict<+E> = Proceed | Blocked(reason: E)
}
