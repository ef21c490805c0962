/** Optional values: JavaScript's `undefined` / absent key, made explicit. */
module Wrappers {

  datatype Option<+T> = None | Some(value: T)

}
