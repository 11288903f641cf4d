/** The value-or-nothing datatype shared by the whole model. */
module Options {

  datatype Option<+T> = None | Some(value: T)
}
