/** Optional values: the autoplay handle is either absent (`null` in the widget) or an interval id. */
module Wrappers {
  datatype Option<+T> = None | Some(value: T)
}
