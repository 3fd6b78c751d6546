/** Optional values: a null pointer, an absent register write, a missing event. */
module Options {

  datatype Option<T> = None | Some(value: T)

  /** The zero- or one-element sequence holding the value of o, if any. */
  function AsSeq<T>(o: Option<T>): (r: seq<T>)
    ensures |r| <= 1
    ensures o.Some? <==> |r| == 1
    ensures o.Some? ==> r[0] == o.value
    ensures o.None? ==> r == []
  {
    if o.Some? then [o.value] else []
  }
}
