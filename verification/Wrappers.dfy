/** The conventional optional value, used wherever the source has a value that may be nil. */
module Wrappers {
  datatype Option<+T> = None | Some(value: T)
}
