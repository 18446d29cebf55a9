/** Optional values, used for the lookups that may find nothing
    (`Array.prototype.find`, `findIndex`, `Map.prototype.get`). */
module Wrappers {

  datatype Option<+T> = None | Some(value: T)
}
