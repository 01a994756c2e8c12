/** Optional values: `None` stands for an absent browser value (no `window`). */
module Wrappers {

  datatype Option<+T> = None | Some(value: T)
}
