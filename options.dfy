/** The optional value used wherever the page script may find nothing
    (a missing form field, a section with no matching navigation link). */
module Options {
  datatype Option<+T> = None | Some(value: T)
}
