/** The usual optional-value datatype, used for nullable links and lookups. */
module Wrappers {

  datatype Option<+T> = None | Some(value: T)
}
