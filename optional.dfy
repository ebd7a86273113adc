/** Java's Optional and nullable references, written as an explicit sum type. */
module Optional {

  datatype Option<+T> = None | Some(value: T)
}
