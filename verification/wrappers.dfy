/** Optional values, used for the host lookups that may find nothing. */
module Wrappers {

  datatype Option<+T> = None | Some(value: T)

}
