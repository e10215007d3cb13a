/** A value that may be missing: Python's `None` in the fields a handler reads. */
module Wrappers {
  datatype Option<+T> = None | Some(value: T)
}
