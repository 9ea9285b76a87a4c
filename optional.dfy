/** The optional value used for the nullable columns and form fields of the helpdesk. */
module Optional {
  datatype Option<+T> = None | Some(value: T)
}
