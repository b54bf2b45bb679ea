/** A value that may be missing: Python's None, or an exception where nothing else is said. */
module Wrappers {

  datatype Option<+T> = None | Some(value: T)
}
