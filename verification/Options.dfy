/** The value a nullable column, a map lookup or a findIndex yields. */
module Options {

  datatype Option<+T> = None | Some(value: T)
}
