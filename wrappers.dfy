/** Optional values: `None` stands for JavaScript's `undefined` (or a missing prop). */
module Wrappers {
  datatype Option<+T> = None | Some(value: T)
}
