/** Sizes of sets and of sequences without repetition, and one fact of multiplication. */
module Counting {
  lemma SubsetCount<T>(a: set<T>, b: set<T>)
    requires a <= b
    ensures |a| <= |b|
  {
    assert b == a + (b - a);
  }

  function ToSet<T>(s: seq<T>): set<T> { set x | x in s }

  lemma {:induction false} DistinctCount<T>(s: seq<T>)
    requires forall i, j :: 0 <= i < j < |s| ==> s[i] != s[j]
    ensures |ToSet(s)| == |s|
  {
    if s != [] {
      var n := |s| - 1;
      DistinctCount(s[..n]);
      assert s == s[..n] + [s[n]];
      assert ToSet(s) == ToSet(s[..n]) + {s[n]};
    }
  }

  lemma MulGrows(a: int, b: int, n: int)
    requires a <= b && n >= 0
    ensures a * n <= b * n
  {
  }

  function Shifted(ks: set<nat>): set<nat> { set k | k in ks :: k + 1 }

  lemma {:induction false} ShiftedCount(ks: set<nat>)
    ensures |Shifted(ks)| == |ks|
  {
    if ks == {} {
      assert Shifted(ks) == {};
    } else {
      var k :| k in ks;
      ShiftedCount(ks - {k});
      ShiftedHas(ks, k);
    }
  }

  lemma ShiftedHas(ks: set<nat>, k: nat)
    requires k in ks
    ensures Shifted(ks) == Shifted(ks - {k}) + {k + 1} && k + 1 !in Shifted(ks - {k})
  {
    forall j | j in Shifted(ks) ensures j in Shifted(ks - {k}) + {k + 1} {
      assert j - 1 in ks;
      if j != k + 1 { assert j - 1 in ks - {k}; }
    }
  }
}
