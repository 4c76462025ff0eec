/** The optional value shared by the models in this project. */
module Options {
  datatype Option<+T> = None | Some(value: T)
}
