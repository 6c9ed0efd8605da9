/** The optional value used for nullable columns and absent lookups. */
module Wrappers {

  datatype Option<+T> = None | Some(value: T)
}
