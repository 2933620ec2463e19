/** Optional values: the model's stand-in for C's NULL pointers. */
module Wrappers {

  datatype Option<T> = None | Some(value: T)
}
