/** The usual optional value, used by the readers that invert the printed lines. */
module Options {
  datatype Option<+T> = None | Some(value: T)
}
