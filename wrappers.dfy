/** Optional values, standing in for nullable pointers and for parses that may fail. */
module Wrappers {

  datatype Option<+T> = None | Some(value: T)
}
