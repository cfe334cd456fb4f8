/** Optional values: a result that the source may return as null becomes an `Option`. */
module Wrappers {

  datatype Option<+T> = None | Some(value: T)
}
