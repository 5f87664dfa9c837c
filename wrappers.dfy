/** Optional values: Swift's `T?`, with `nil` as `None`. */
module Wrappers {

  datatype Option<+T> = None | Some(value: T)
}
