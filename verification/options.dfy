/** The optional value used wherever the JavaScript source may yield `undefined`. */
module Options {

  datatype Option<+T> = None | Some(value: T)

}
