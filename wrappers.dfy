/** Optional values: `None` stands for Go's `nil`. */
module Wrappers {
  datatype Option<+T> = None | Some(value: T)
}
