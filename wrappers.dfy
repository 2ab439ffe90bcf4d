/** The optional value used wherever a Go function reports success with an
    extra `bool` or `error` result. */
module Wrappers {

  datatype Option<+T> = None | Some(value: T)
}
