/** Failure-carrying values used wherever the Python code raises or returns None. */
module Wrappers {

  datatype Option<+T> = None | Some(value: T)
}
