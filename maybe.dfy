/** The optional value used wherever the source has `null`/`undefined`. */
module Maybe {
  datatype Option<+T> = None | Some(value: T)
}
