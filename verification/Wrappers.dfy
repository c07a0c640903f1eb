/** Optional values, shared by every module of the model. */
module Wrappers {

  /** Python's `None`-or-a-value. */
  datatype Option<+T> = None | Some(value: T)
}
