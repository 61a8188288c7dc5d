/** Optional values, for the source's `undefined` and `null` results. */
module Wrappers {
  datatype Option<+T> = None | Some(value: T)
}
