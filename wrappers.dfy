/** The nullable references of the Java source (a parent link, a stored
    invocation node, an argument list) are modelled as Option values. */
module Wrappers {

  datatype Option<+T> = None | Some(value: T)
}
