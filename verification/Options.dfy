/** The optional value: an absent Lua field or argument is `None`. */
module Options {
  datatype Option<+T> = None | Some(value: T)

  /** Lua's `a or b` where neither can be false. */
  function OrElse<T>(a: Option<T>, b: Option<T>): Option<T> {
    if a.Some? then a else b
  }
}
