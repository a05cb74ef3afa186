/** A value that may be absent; the absent case also stands for a thrown exception. */
module Options {
  datatype Option<+T> = None | Some(value: T)
}
