/** What several parts share. */
module Prelude {
  datatype Option<+T> = None | Some(value: T)

  lemma SubsetSize<T>(a: set<T>, b: set<T>)
    requires a <= b
    ensures |a| <= |b|
  {
    assert b == a + (b - a);
  }

  ghost function Numbers(lo: nat, hi: nat): (s: set<nat>)
    requires lo <= hi
    ensures |s| == hi - lo
    ensures forall k: nat :: k in s <==> lo <= k < hi
    decreases hi - lo
  {
    if lo == hi then {} else Numbers(lo + 1, hi) + {lo}
  }

  lemma OneMoreNumber(n: nat)
    ensures Numbers(0, n + 1) == Numbers(0, n) + {n}
  {
    hide Numbers;
  }
}
