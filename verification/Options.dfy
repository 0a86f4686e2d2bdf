/** The usual optional value, standing for SQL NULL and for an absent property. */
module Options {
  datatype Option<+T> = None | Some(value: T)

  /** `a ?? b` of the source: only an absent value falls through. */
  function Or<T>(a: Option<T>, b: T): T {
    if a.Some? then a.value else b
  }

  /** A source truthiness test on an optional string: absent and empty are both false. */
  predicate Truthy(a: Option<string>) {
    a.Some? && a.value != ""
  }
}
