/** The optional value used for the persisted slot and for the result of a lookup. */
module Wrappers {
  datatype Option<+T> = None | Some(value: T)
}
