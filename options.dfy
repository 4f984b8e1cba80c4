/** The optional value used for "no tank selected" and for "nothing was uploaded". */
module Options {
  datatype Option<+T> = None | Some(value: T)
}
