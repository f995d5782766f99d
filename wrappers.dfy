/** Optional values: JavaScript's `undefined` on the results of lookups and resolutions. */
module Wrappers {

  datatype Option<+T> = None | Some(value: T)
}
