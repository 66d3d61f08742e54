/** Optional values: Swift's `T?`, used for `firstIndex(where:)`,
    `first` and the optional memo of a record. */
module Wrappers {

  datatype Option<+T> = None | Some(value: T)
}
