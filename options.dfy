/** The optional value PHP expresses with `null`. */
module Options {

  datatype Option<+T> = None | Some(value: T)
}
