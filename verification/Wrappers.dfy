/** Optional values, used where the C++ sources return a null pointer. */
module Wrappers {

  datatype Option<+T> = None | Some(value: T)
}
