/** Optional values, used for regular-expression groups, conversions and errors. */
module Wrappers {
  datatype Option<+T> = None | Some(value: T)
}
