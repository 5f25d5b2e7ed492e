/** The conventional Some/None datatype, used where the source uses `None`. */
module Options {

  datatype Option<+T> = None | Some(value: T)
}
