/** The optional value used where the source returns (value, error) or (value, ok). */
module Wrappers {
  datatype Option<+T> = None | Some(value: T)
}
