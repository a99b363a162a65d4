/** The optional value that stands for a Python `re.Match` object or `None`. */
module Wrappers {
  datatype Option<+T> = None | Some(value: T)
}
