/** Optional values, standing for the null pointers and absent results of the source. */
module Wrappers {

  datatype Option<+T> = None | Some(value: T)
}
