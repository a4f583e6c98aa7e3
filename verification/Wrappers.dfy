/** The optional value used for absent entries and replies. */
module Wrappers {
  datatype Option<+T> = None | Some(value: T)
}
