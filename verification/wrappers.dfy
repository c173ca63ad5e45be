/** Optional values, standing for the C pointers that may be NULL. */
module Wrappers {

  datatype Option<+T> = None | Some(value: T)
}
