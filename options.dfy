/** Optional values, used wherever the source returns `undefined` or `null` for "absent". */
module Options {
  datatype Option<+T> = None | Some(value: T)
}
