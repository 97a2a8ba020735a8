/** The optional value used for the Go idioms `(value, ok)` and `(value, err)`. */
module Wrappers {
  datatype Option<+T> = None | Some(value: T)
}
