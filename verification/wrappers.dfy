/** Optional values: `None` stands for a JavaScript `undefined` (a dimension key that is absent) or for a
    value computed from one (a NaN coordinate, a malformed path). */
module Wrappers {
  datatype Option<+T> = None | Some(value: T)
}
