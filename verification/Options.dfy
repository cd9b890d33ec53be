/** An optional value, standing for the source's null, undefined and thrown errors. */
module Options {
  datatype Option<+T> = None | Some(value: T)
}
