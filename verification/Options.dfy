// Option, shared by the specifications that may have no answer.
module Options {
  datatype Option<+T> = None | Some(value: T)
}
