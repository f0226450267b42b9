/** A value that may be absent: JavaScript's `undefined` or `null` in a
    field that is optional. */
module Optional {
  datatype Option<T> = None | Some(value: T)
}
