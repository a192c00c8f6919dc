/** First-match search over a sequence, the shape of `Iterator::find`. */
module Search {
  import opened Results

  /** The index of the first element satisfying `p`, scanning in sequence order. */
  function FirstIndex<T>(s: seq<T>, p: T -> bool): (r: Option<nat>)
    ensures r.Some? ==> r.value < |s| && p(s[r.value])
    ensures r.Some? ==> forall j :: 0 <= j < r.value ==> !p(s[j])
    ensures r.None? <==> forall j :: 0 <= j < |s| ==> !p(s[j])
  {
    if |s| == 0 then None
    else if p(s[0]) then Some(0)
    else
      match FirstIndex(s[1..], p)
      case None => None
      case Some(i) => Some(i + 1)
  }

  /** `i` is the position `find` stops at: it satisfies `p` and nothing before it does. */
  ghost predicate IsFirst<T>(s: seq<T>, i: int, p: T -> bool)
  {
    0 <= i < |s| && p(s[i]) && forall j :: 0 <= j < i ==> !p(s[j])
  }

  /** The first satisfying position is unique, so `FirstIndex` finds exactly it. */
  lemma FirstIndexIsFirst<T>(s: seq<T>, i: int, p: T -> bool)
    requires IsFirst(s, i, p)
    ensures FirstIndex(s, p) == Some(i)
  {
  }
}
