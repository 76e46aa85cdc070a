/** Literal, case-sensitive substring containment: the meaning the model gives to the
    `str.contains` selections of the route finder (regular-expression matching is not modelled). */
module Substring {

  /** `p` occurs in `s` starting at index `k`. */
  ghost predicate OccursAt(s: string, p: string, k: int) {
    0 <= k && k + |p| <= |s| && s[k..k + |p|] == p
  }

  /** True when `p` occurs somewhere in `s`; the empty pattern occurs in every string. */
  function Contains(s: string, p: string): (b: bool)
    ensures b <==> exists k :: OccursAt(s, p, k)
    decreases |s|
  {
    if |p| <= |s| && s[..|p|] == p then
      assert OccursAt(s, p, 0);
      true
    else if s == [] then
      false
    else
      OccursAfterHead(s, p);
      Contains(s[1..], p)
  }

  /** Occurrences in the tail of `s` are the occurrences in `s` shifted by one. */
  lemma OccursAfterHead(s: string, p: string)
    requires s != []
    ensures forall k :: OccursAt(s[1..], p, k) ==> OccursAt(s, p, k + 1)
    ensures forall k :: 1 <= k && OccursAt(s, p, k) ==> OccursAt(s[1..], p, k - 1)
  {
    forall k | OccursAt(s[1..], p, k) ensures OccursAt(s, p, k + 1) {
      assert s[1..][k..k + |p|] == s[k + 1..k + 1 + |p|];
    }
    forall k | 1 <= k && OccursAt(s, p, k) ensures OccursAt(s[1..], p, k - 1) {
      assert s[1..][k - 1..k - 1 + |p|] == s[k..k + |p|];
    }
  }
}
