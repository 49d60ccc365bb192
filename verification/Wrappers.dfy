/** A value that may be missing: a search without result, or a call that returns SYSERR. */
module Wrappers {
  datatype Option<+T> = None | Some(value: T)
}
