/** Optional values, used for the `error` fields of the events that may be nil. */
module Wrappers {

  /** `None` stands for a nil Go value, `Some(v)` for a non-nil one. */
  datatype Option<+T> = None | Some(value: T)
}
