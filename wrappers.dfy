/** Optional values: a regular-expression match that may fail, a number that may not parse. */
module Wrappers {

  datatype Option<+T> = None | Some(value: T)
}
