/** Optional values: the model's stand-in for Kotlin's nullable references. */
module Wrappers {

  /** `None` plays the role of `null`; `Some(v)` a present value. */
  datatype Option<+T> = None | Some(value: T)
}
