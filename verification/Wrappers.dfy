/** Optional values, used wherever the Go code returns a value with an "ok" flag or a nil pointer. */
module Wrappers {
  datatype Option<+T> = None | Some(value: T)
}
