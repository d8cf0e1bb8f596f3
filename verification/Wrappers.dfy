/** The option type the models use for nullable columns and optional errors. */
module Wrappers {
  datatype Option<+T> = None | Some(value: T)
}
