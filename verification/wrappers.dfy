/** The Some/None datatype used in place of the C code's NULL pointers. */
module Wrappers {
  datatype Option<+T> = None | Some(value: T)
}
