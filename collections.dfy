/** Swift `Array` lookups shared by several screens. */
module Collections {
  import opened Wrappers

  /** `firstIndex(of:)`: the position of the first element equal to `e`, if any. */
  function FirstIndexOf<T(==)>(s: seq<T>, e: T): (p: Option<nat>)
    ensures p.None? <==> e !in s
    ensures p.Some? ==> p.value < |s| && s[p.value] == e
    ensures p.Some? ==> forall k :: 0 <= k < p.value ==> s[k] != e
  {
    if |s| == 0 then None
    else if s[0] == e then Some(0)
    else match FirstIndexOf(s[1..], e)
      case None => None
      case Some(q) => Some(q + 1)
  }

  /** The first position of an element of `s` holds that element and no earlier position does. */
  lemma FirstIndexOfElement<T>(s: seq<T>, k: nat)
    requires k < |s|
    ensures FirstIndexOf(s, s[k]).Some? && FirstIndexOf(s, s[k]).value <= k
  {
  }

  /** In a list without repeats, the first index of the element at `k` is `k`. */
  lemma FirstIndexOfDistinct<T>(s: seq<T>, k: nat)
    requires k < |s|
    requires forall a, b :: 0 <= a < b < |s| ==> s[a] != s[b]
    ensures FirstIndexOf(s, s[k]) == Some(k)
  {
  }
}
