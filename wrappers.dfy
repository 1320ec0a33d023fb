/** A value that may be absent, as Python's `None` is used in the monitor. */
module Wrappers {
  datatype Option<T> = None | Some(value: T)
}
