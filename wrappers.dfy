/** Optional values, used for the request's keyword (which may be missing) and for decoded replies. */
module Wrappers {
  datatype Option<+T> = None | Some(value: T)
}
