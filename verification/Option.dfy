/** The optional value used for nullable columns, absent rows and zero times. */
module Options {

  datatype Option<+T> = None | Some(value: T)
}
