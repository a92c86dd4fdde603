/** Facts about sequences shared by the modules. */
module Seqs {
  import opened Wrappers

  /** Regrouping a concatenation; calling this keeps the regrouping away from
      the definitions the concatenated parts unfold to. */
  lemma AppendAssoc<T>(a: seq<T>, b: seq<T>, c: seq<T>)
    ensures a + b + c == a + (b + c)
  {
  }

  /** The position of the first element from `k` on that satisfies `p`, if
      there is one. */
  function FirstIndex<T>(p: T -> bool, s: seq<T>, k: nat): (r: Option<nat>)
    requires k <= |s|
    ensures r.Some? ==> k <= r.value < |s| && p(s[r.value])
    ensures r.Some? ==> forall i :: k <= i < r.value ==> !p(s[i])
    decreases |s| - k
  {
    if k == |s| then None
    else if p(s[k]) then Some(k)
    else FirstIndex(p, s, k + 1)
  }

  /** Nothing from `k` on satisfies `p` exactly when the search from `k` finds nothing. */
  lemma {:induction false} FirstIndexNone<T>(p: T -> bool, s: seq<T>, k: nat)
    requires k <= |s|
    ensures FirstIndex(p, s, k).None? <==> forall i :: k <= i < |s| ==> !p(s[i])
    decreases |s| - k
  {
    if k < |s| && !p(s[k]) {
      FirstIndexNone(p, s, k + 1);
    }
  }

  /** The search finds `j` when `j` is the first position from `k` on that satisfies `p`. */
  lemma {:induction false} FirstIndexIs<T>(p: T -> bool, s: seq<T>, k: nat, j: nat)
    requires k <= j < |s| && p(s[j])
    requires forall i :: k <= i < j ==> !p(s[i])
    ensures FirstIndex(p, s, k) == Some(j)
    decreases j - k
  {
    if k < j {
      FirstIndexIs(p, s, k + 1, j);
    }
  }
}
