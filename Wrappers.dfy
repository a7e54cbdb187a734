/** Optional values, used for JavaScript `undefined`/`null` and for absent files or keys. */
module Wrappers {

  datatype Option<+T> = None | Some(value: T)
}
