/** The optional value used for a missing or unreadable stored table and for the
    maximum of an empty table. */
module Wrappers {
  datatype Option<+T> = None | Some(value: T)
}
