/** Optional values: an absent date (pandas NaT) is `None`. */
module Wrappers {
  datatype Option<+T> = None | Some(value: T)
}
