/** Absent values: the source's None, and a decoder's rejection. */
module Options {
  datatype Option<+T> = None | Some(value: T)
}
