/** Optional values: Python's None stands for an absent statistic or VM slot. */
module Wrappers {
  datatype Option<+T> = None | Some(value: T)
}
