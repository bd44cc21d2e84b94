/** JavaScript's optional values (`undefined`, `?.`, `||` defaults) as an Option datatype. */
module Options {

  datatype Option<+T> = None | Some(value: T) {

    /** The value, or `default` when absent (`x ?? default`). */
    function GetOr(default: T): T {
      match this
      case Some(v) => v
      case None => default
    }
  }

  /** JavaScript truthiness of an optional boolean: `undefined` is falsy. */
  predicate Truthy(b: Option<bool>) {
    b == Some(true)
  }
}
