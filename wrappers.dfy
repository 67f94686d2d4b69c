/** Optional values: JavaScript's `null` (or `undefined`) against a present
    value. */
module Wrappers {

  datatype Option<+T> = None | Some(value: T)
}
