/** A value that may be absent: SQL's NULL, Go's nil, an empty search result. */
module Options {

  datatype Option<+T> = None | Some(value: T)
}
