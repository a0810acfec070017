/** Small string and sequence helpers shared by the registry, the answer-tag
    scanner and the puzzle validator. */
module Text {

  datatype Option<T> = None | Some(value: T)

  /** True when `pat` occurs in `s` starting at index `i`. */
  predicate OccursAt(s: string, pat: string, i: nat)
  {
    i + |pat| <= |s| && s[i..i + |pat|] == pat
  }

  /** The least index at or after `from` where `pat` occurs in `s`
      (Python's `s.find(pat, from)`, with None for -1). */
  function FindFrom(s: string, pat: string, from: nat): (r: Option<nat>)
    requires from <= |s|
    ensures r.Some? ==> from <= r.value && OccursAt(s, pat, r.value)
    decreases |s| - from
  {
    if from + |pat| > |s| then None
    else if OccursAt(s, pat, from) then Some(from)
    else FindFrom(s, pat, from + 1)
  }

  /** The search passes no occurrence: there is none before the index it
      finds, and none at all at or after `from` when it finds nothing. */
  lemma {:induction false} FindFromFirst(s: string, pat: string, from: nat)
    requires from <= |s|
    ensures var r := FindFrom(s, pat, from);
      && (r.Some? ==> forall k :: from <= k < r.value ==> !OccursAt(s, pat, k))
      && (r.None? ==> forall k :: from <= k ==> !OccursAt(s, pat, k))
    decreases |s| - from
  {
    if from + |pat| <= |s| && !OccursAt(s, pat, from) {
      FindFromFirst(s, pat, from + 1);
    }
  }

  /** A search that passes no occurrence before `at` finds the one at `at`. */
  /** Where the search succeeds, the whole pattern lies inside `s`. */
  lemma FoundWithin(s: string, pat: string, from: nat, at: nat)
    requires from <= |s| && FindFrom(s, pat, from) == Some(at)
    ensures from <= at && at + |pat| <= |s|
  {
  }

  lemma {:induction false} FoundAt(s: string, pat: string, from: nat, at: nat)
    requires from <= at && OccursAt(s, pat, at)
    requires forall k :: from <= k < at ==> !OccursAt(s, pat, k)
    ensures FindFrom(s, pat, from) == Some(at)
    decreases at - from
  {
    if from < at {
      assert !OccursAt(s, pat, from);
      FoundAt(s, pat, from + 1, at);
    }
  }

  /** The position of the first element equal to `x`: the linear scans that
      the registry runs over descriptions stop at this element. */
  function FirstIndex(xs: seq<string>, x: string): (r: Option<nat>)
    ensures r.Some? ==> r.value < |xs| && xs[r.value] == x
    ensures r.Some? ==> forall k :: 0 <= k < r.value ==> xs[k] != x
    ensures r.None? <==> x !in xs
  {
    if xs == [] then None
    else if xs[0] == x then Some(0)
    else match FirstIndex(xs[1..], x)
      case None => None
      case Some(k) => Some(k + 1)
  }
}
