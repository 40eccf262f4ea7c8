/** Optional values. In this model `None` stands for the JavaScript value `null`. */
module Wrappers {

  /** A value that may be missing: `Some(v)` carries a string, `None` models a `null` field. */
  datatype Option<+T> = None | Some(value: T)
}
