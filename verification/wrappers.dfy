/** Optional values. A record field of type `string | null` (or an optional property that may be
    `undefined`) is an `Option<string>`; `null` and `undefined` are both `None`. */
module Wrappers {

  datatype Option<+T> = None | Some(value: T) {

    /** The value, or `default` when there is none. */
    function GetOr(default: T): T {
      match this
      case Some(v) => v
      case None => default
    }
  }
}

/** JavaScript truthiness of nullable strings: `null`, `undefined` and the empty string are falsy,
    every other string is truthy. The dashboard writes its fallbacks as `a || b`. */
module Nullable {
  import opened Wrappers

  /** `!!t` for a value of type `string | null | undefined`. */
  predicate Present(t: Option<string>) {
    t.Some? && |t.value| > 0
  }

  /** `t || fallback` where the fallback is a plain string. */
  function OrElse(t: Option<string>, fallback: string): (r: string)
    ensures Present(t) ==> r == t.value
    ensures !Present(t) ==> r == fallback
  {
    if Present(t) then t.value else fallback
  }

  /** `a || b` where both sides may be absent. */
  function Either(a: Option<string>, b: Option<string>): (r: Option<string>)
    ensures Present(a) ==> r == a
    ensures !Present(a) ==> r == b
  {
    if Present(a) then a else b
  }

  /** `value || undefined`: the empty string becomes absent, as the pages do before they hand
      fields to the message templates. */
  function Defined(t: Option<string>): (r: Option<string>)
    ensures Present(t) <==> Present(r)
    ensures r.Some? ==> r == t
  {
    if Present(t) then t else None
  }
}
