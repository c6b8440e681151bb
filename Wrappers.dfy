/** The optional value used wherever the source returns `null`/`undefined`
    or a value. */
module Wrappers {
  datatype Option<T> = None | Some(value: T)

  /** `value || ''` for an optional string. */
  function OrEmpty(o: Option<string>): string
  {
    match o
      case Some(s) => s
      case None => ""
  }
}
