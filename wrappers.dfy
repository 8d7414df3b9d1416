/** Optional values: `undefined`/`null` in the source's records. */
module Wrappers {

  datatype Option<T> = None | Some(value: T)
}
