/** The optional value used for nullable foreign keys and failed lookups. */
module Wrappers {
  datatype Option<+T> = None | Some(value: T)
}
