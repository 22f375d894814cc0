/** The optional value used for Go's nil pointers and missing answers. */
module Wrappers {
  datatype Option<+T> = None | Some(value: T)
}
