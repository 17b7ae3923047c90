/** Optional values, for the source's nullable variables and missing results. */
module Wrappers {
  datatype Option<+T> = None | Some(value: T)
}
