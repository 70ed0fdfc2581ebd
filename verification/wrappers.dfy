/** Optional values: JavaScript `undefined` and `null` become None. */
module Wrappers {
  datatype Option<+T> = None | Some(value: T)
}
