/** The Some/None datatype used where the C code returns a pointer that may be NULL
    and where the Python code may raise instead of returning. */
module Wrappers {
  datatype Option<+T> = None | Some(value: T)
}
