/** The optional value used for a card that has not been drawn yet and for a parse that fails. */
module Options {

  datatype Option<+T> = None | Some(value: T)

}
