/** Optional values, used for references the source compares with null. */
module Wrappers {
  datatype Option<+T> = None | Some(value: T)
}
