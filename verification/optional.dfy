/** Python's `None` next to a value: the optional job attributes and the results of the matchers. */
module Optional {

  datatype Option<+T> = None | Some(value: T)
}
