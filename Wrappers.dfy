/** Optional values: `undefined`/`null`/`NaN` of the original become `None`. */
module Wrappers {
  datatype Option<+T> = None | Some(value: T)
}
