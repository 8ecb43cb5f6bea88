/** Optional values, used for the "replacement layout" that layout operations may hand back. */
module Wrappers {

  datatype Option<T> = None | Some(value: T)
}
