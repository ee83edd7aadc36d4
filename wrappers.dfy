/** Failure-carrying wrappers shared by every module of the model. */
module Wrappers {

  /** A value that may be absent (a Go `nil` pointer or a "not found"). */
  datatype Option<+T> = None | Some(value: T)

  /** A value or the error that replaced it. */
  datatype Result<+T, +E> = Ok(value: T) | Err(error: E)

  /**
   * The errors of the session. `Panic` stands for a Go runtime panic
   * (index out of range, nil function call, a failed `ParseInt`): in the
   * program it aborts the process, here it is a value that says so.
   */
  datatype Error =
    | SettingNotFound(name: string)
    | ValueNotFound
    | Panic(reason: string)
}
