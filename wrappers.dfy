/** The optional value used for lookups that may find nothing and for a
    dispatch sender that may not be installed. */
module Wrappers {
  datatype Option<+T> = None | Some(value: T)
}
