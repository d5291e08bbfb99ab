/** The conventional Some/None datatype, used for values the source may lack. */
module Optional {
  datatype Option<+T> = None | Some(value: T)
}
