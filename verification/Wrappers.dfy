/** An optional value: the source's possibly-NULL pointers. */
module Wrappers {
  datatype Option<+T> = None | Some(value: T)
}
