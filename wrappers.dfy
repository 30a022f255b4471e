/** Optional values, used wherever the source may produce nothing or raise. */
module Wrappers {
  datatype Option<+T> = None | Some(value: T)
}
