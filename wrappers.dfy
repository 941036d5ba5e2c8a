/** Optional values: a JavaScript `undefined`/`null` or a missing entry. */
module Wrappers {
  datatype Option<+T> = None | Some(value: T)
}
