/** Optional values: a query parameter that may be missing, a range bound that may be unset. */
module Wrappers {

  datatype Option<+T> = None | Some(value: T)
}
