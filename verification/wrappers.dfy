/** Optional values, standing in for JavaScript's `undefined` and `NaN`. */
module Wrappers {

  datatype Option<+T> = None | Some(value: T)
}
