/** Optional values: a Go nil becomes None. */
module Wrappers {

  datatype Option<+T> = None | Some(value: T)
}
