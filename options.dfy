/** The optional value used where the calculator keeps a Python `None`. */
module Options {

  datatype Option<+T> = None | Some(value: T)
}
