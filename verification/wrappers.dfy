/** Optional values: JavaScript's `undefined` / `null` results (a failed `find`, a missing lead). */
module Wrappers {

  datatype Option<+T> = None | Some(value: T)
}
