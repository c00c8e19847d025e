/** The nullable references of the Java source (a `String` that may be
    `null`, a list argument that may be `null`) are modelled as `Option`. */
module Wrappers {

  datatype Option<+T> = None | Some(value: T)
}
