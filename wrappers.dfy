/** Optional values: `None` stands for JavaScript's `undefined` answer of a lookup. */
module Wrappers {

  datatype Option<+T> = None | Some(value: T)
}
