/** A value that may be absent: a missing entry, or a call that failed. */
module Wrappers {
  datatype Option<+T> = None | Some(value: T)
}
