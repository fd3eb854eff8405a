/** The optional value used wherever the modelled code may hold `null` or nothing. */
module Options {

  datatype Option<+T> = None | Some(value: T)
}
