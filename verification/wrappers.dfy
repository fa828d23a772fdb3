/** Optional values, standing in for the source's NULL returns. */
module Wrappers {

  datatype Option<+T> = None | Some(value: T)
}
