/** Optional values, standing for Python's `None` in fields and arguments. */
module Wrappers {

  /** `None` or a present value. */
  datatype Option<+T> = None | Some(value: T)
}
