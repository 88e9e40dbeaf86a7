/** Optional values, used where the source passes a nullable argument. */
module Wrappers {

  datatype Option<+T> = None | Some(value: T)
}
