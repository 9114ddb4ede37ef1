/** The result of a search, an allocation, or a call that can fail. */
module Wrappers {
  datatype Option<T> = None | Some(value: T)
}
