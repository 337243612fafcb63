// Optional values: a record field that may be absent, a choice not made yet.

module Optional {
  datatype Option<T> = None | Some(value: T)

  /** The carried value, or `fallback` when there is none. */
  function ValueOr<T>(o: Option<T>, fallback: T): (r: T)
    ensures o.Some? ==> r == o.value
    ensures o.None? ==> r == fallback
  {
    if o.Some? then o.value else fallback
  }
}
