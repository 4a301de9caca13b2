/** The optional value used for browser storage and dictionary look-ups. */
module Wrappers {
  datatype Option<T> = None | Some(value: T)
}
