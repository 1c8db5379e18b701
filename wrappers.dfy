/** The optional value used wherever the source has a nullable reference. */
module Wrappers {

  datatype Option<+T> = None | Some(value: T)
}

/** Searching a sequence from the front, as Kotlin's `firstOrNull` and the
    `forEachIndexed { ... return index }` loops do. */
module Seqs {
  import opened Wrappers

  /** The index of the first element satisfying `p`, or None when there is none. */
  function FirstIndex<T>(s: seq<T>, p: T -> bool): (r: Option<nat>)
    ensures r.Some? ==> r.value < |s| && p(s[r.value])
    ensures r.Some? ==> forall k :: 0 <= k < r.value ==> !p(s[k])
    ensures r.None? <==> forall k :: 0 <= k < |s| ==> !p(s[k])
  {
    if |s| == 0 then None
    else if p(s[0]) then Some(0)
    else match FirstIndex(s[1..], p)
      case None => None
      case Some(i) => Some(i + 1)
  }

  /** An index that satisfies `p` with no earlier one that does is what FirstIndex returns. */
  lemma FirstIndexIs<T>(s: seq<T>, p: T -> bool, i: nat)
    requires i < |s| && p(s[i])
    requires forall k :: 0 <= k < i ==> !p(s[k])
    ensures FirstIndex(s, p) == Some(i)
  {
  }
}
