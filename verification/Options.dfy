/** A value that may be missing: the source's `null` and `undefined` results. */
module Options {
  datatype Option<+T> = None | Some(value: T)
}
