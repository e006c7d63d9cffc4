/** Optional values: a Go pair `(value, ok)` or a nilable pointer or error. */
module Wrappers {
  datatype Option<+T> = None | Some(value: T)
}
