/** Optional values, for the operations that raise instead of returning. */
module Wrappers {

  datatype Option<+T> = None | Some(value: T)
}
