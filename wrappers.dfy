/** Optional values: the game's `None` results. */
module Wrappers {
  datatype Option<+T> = None | Some(value: T)
}
