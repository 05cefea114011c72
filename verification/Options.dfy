/** The one optional value used across the project: a Go value that may be nil,
    a lookup that may be NotFound, an annotation that may be absent. */
module Options {
  datatype Option<+T> = None | Some(value: T)
}
