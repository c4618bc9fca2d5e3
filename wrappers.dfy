/** The optional value used wherever a feed field, a scrape result or a
    remote reply may be absent. */
module Wrappers {

  datatype Option<+T> = None | Some(value: T)

  /** Python's `d.get(key, default)`: the stored value when the key is
      present, the default otherwise. */
  function Get<T>(o: Option<T>, default: T): (r: T)
    ensures o.Some? ==> r == o.value
    ensures o.None? ==> r == default
  {
    match o
    case Some(v) => v
    case None => default
  }
}
