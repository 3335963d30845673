/** Values that may be absent and texts that may be blank. */
module Wrappers {
  datatype Option<+T> = None | Some(value: T)

  function Or<T>(a: Option<T>, b: Option<T>): Option<T> { if a.Some? then a else b }

  function OrElse(a: string, b: string): string { if a != "" then a else b }
}
