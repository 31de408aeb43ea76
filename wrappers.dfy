/** The Option datatype: a formation label that may be missing from a row. */
module Wrappers {
  datatype Option<+T> = None | Some(value: T)
}
