/** The optional value used where a handler may or may not call back. */
module Wrappers {
  datatype Option<+T> = None | Some(value: T)
}
