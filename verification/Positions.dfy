/** Parts of a sequence, described by the positions that they are taken from. */
module Positions {
  /** The positions of the elements with property p, in order. */
  ghost predicate Picks<T>(at: seq<nat>, s: seq<T>, p: T -> bool) {
    && (forall k | 0 <= k < |at| :: at[k] < |s| && p(s[at[k]]))
    && (forall j, k | 0 <= j < k < |at| :: at[j] < at[k])
    && (forall i: nat | i < |s| && p(s[i]) :: i in at)
  }

  lemma PicksNone<T>(p: T -> bool)
    ensures Picks([], [], p)
  {
  }

  /** One more element. */
  lemma PicksMore<T>(at: seq<nat>, s: seq<T>, n: nat, p: T -> bool)
    requires n + 1 == |s| && Picks(at, s[..n], p)
    ensures Picks(if p(s[n]) then at + [n] else at, s, p)
    ensures forall k | 0 <= k < |at| :: at[k] < n && s[..n][at[k]] == s[at[k]]
  {
    var more := if p(s[n]) then at + [n] else at;
    assert forall k | 0 <= k < |at| :: more[k] == at[k] && s[..n][at[k]] == s[at[k]];
    forall i: nat | i < |s| && p(s[i]) ensures i in more {
      if i == n { assert more[|at|] == n; } else { assert s[..n][i] == s[i] && i in at; }
    }
  }
}
