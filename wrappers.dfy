/** Optional values: the parsed form of a route parameter that may not denote a number. */
module Wrappers {

  datatype Option<+T> = None | Some(value: T)
}
