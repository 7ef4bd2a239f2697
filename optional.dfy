/** The usual optional-value datatype, shared by the modules of the task service model. */
module Optional {
  datatype Option<+T> = None | Some(value: T)
}
