/** The optional value the Java code expresses with `Optional` or a nullable reference. */
module Wrappers {

  datatype Option<+T> = None | Some(value: T)
}
