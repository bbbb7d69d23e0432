/** Optional values, for results that the source signals by raising or by returning nothing. */
module Wrappers {

  datatype Option<+T> = None | Some(value: T)
}
