/** Optional values: the source's `null` effect and `findIndex`'s -1. */
module Wrappers {

  datatype Option<+T> = None | Some(value: T)
}
