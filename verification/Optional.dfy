/** A value that may be absent: Python's `None`, a missing dictionary entry, or a null column. */
module Optional {
  datatype Option<+T> = None | Some(value: T)
}
