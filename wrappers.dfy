/** Optional values: the model of a TypeScript slot that is either `null` or holds a value. */
module Wrappers {

  datatype Option<+T> = None | Some(value: T)
}
