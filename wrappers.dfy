/** Small value wrappers shared by the model. */
module Wrappers {

  datatype Option<+T> = None | Some(value: T)

  /**
   * What a Go call `v, err := f(...)` hands back: the value it produced and,
   * when it failed, the error. The value is present either way, since Go
   * assigns it even when the error is set.
   */
  datatype Returned<+T> = Returned(value: T, err: Option<string>)
}
