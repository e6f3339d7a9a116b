/** Optional values: a parsed number that may be NaN, a lookup that may miss. */
module Wrappers {
  datatype Option<+T> = None | Some(value: T)
}
