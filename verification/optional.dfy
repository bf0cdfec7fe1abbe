/** The optional value the model uses wherever the controller keeps `undefined`. */
module Optional {

  datatype Option<+T> = None | Some(value: T)
}
