/** The optional value used wherever the source has `T | null` or `T | undefined`. */
module Optional {

  datatype Option<+T> = None | Some(value: T)
}
