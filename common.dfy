/** Shared vocabulary of the store's backend: an optional value and the
    identifier types of the documents the routes read and write. */
module Common {

  /** A value that may be absent (an `undefined` request field, a missing document). */
  datatype Option<+T> = None | Some(value: T) {
    function GetOr(default: T): T {
      match this
      case Some(v) => v
      case None => default
    }
  }

  /** Document ids of products, users and guest sessions, as the request carries them. */
  type ProductId = string
  type UserId = string
  type SessionId = string

  /** JavaScript truthiness of an optional string: `undefined` and `""` are both falsy. */
  predicate Given(s: Option<string>) {
    s.Some? && s.value != ""
  }

  /** The first position of `s` whose element satisfies `p`, if any (`findIndex`, `findById`). */
  function FirstIndex<T>(s: seq<T>, p: T -> bool): (r: Option<nat>)
    ensures r.Some? ==> r.value < |s| && p(s[r.value])
    ensures r.Some? ==> forall j :: 0 <= j < r.value ==> !p(s[j])
    ensures r.None? <==> forall j :: 0 <= j < |s| ==> !p(s[j])
  {
    if s == [] then None
    else if p(s[0]) then Some(0)
    else match FirstIndex(s[1..], p)
      case None => None
      case Some(k) => Some(k + 1)
  }

  function Min(a: int, b: int): int { if a <= b then a else b }
  function Max(a: int, b: int): int { if a >= b then a else b }
}
