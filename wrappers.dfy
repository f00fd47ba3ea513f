/** The optional value used where the service returns Python's None. */
module Wrappers {
  datatype Option<+T> = None | Some(value: T)
}
