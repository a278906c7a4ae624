/** Optional values: a JavaScript value that may be null or undefined. */
module Wrappers {

  datatype Option<T> = None | Some(value: T) {
    predicate IsSome() {
      Some?
    }

    /** `x ?? d`: the value when present, the default otherwise. */
    function GetOr(d: T): (r: T)
      ensures Some? ==> r == value
      ensures None? ==> r == d
    {
      if Some? then value else d
    }
  }

  /** `s || null` for a string s: the empty string is falsy. */
  function NonEmpty(s: string): (r: Option<string>)
    ensures r == None <==> s == ""
    ensures r.Some? ==> r.value == s
  {
    if s == "" then None else Some(s)
  }
}
