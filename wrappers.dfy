/** Optional values: a JavaScript `null`, `undefined` or `NaN` is `None`. */
module Wrappers {
  datatype Option<+T> = None | Some(value: T)
}
