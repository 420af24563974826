/** What holds after n steps because one of them brought it about and none since has ended it. */
module Histories {
  ghost predicate SetAndKept(sets: nat -> bool, keeps: nat -> bool, k: nat, n: nat) {
    k < n && sets(k) && forall m: nat :: k < m < n ==> keeps(m)
  }

  /** One of the first n steps sets it, and every later one keeps it. */
  ghost predicate Since(sets: nat -> bool, keeps: nat -> bool, n: nat) {
    exists k: nat :: SetAndKept(sets, keeps, k, n)
  }

  ghost predicate IsStep(holds: nat -> bool, sets: nat -> bool, keeps: nat -> bool, m: nat) {
    holds(m + 1) <==> sets(m) || (holds(m) && keeps(m))
  }

  lemma {:induction false} HoldsIffSince(holds: nat -> bool, sets: nat -> bool, keeps: nat -> bool, n: nat)
    requires !holds(0) && forall m: nat :: m < n ==> IsStep(holds, sets, keeps, m)
    ensures holds(n) <==> Since(sets, keeps, n)
  {
    if n > 0 {
      HoldsIffSince(holds, sets, keeps, n - 1);
      assert IsStep(holds, sets, keeps, n - 1);
      assert SetAndKept(sets, keeps, n - 1, n) <==> sets(n - 1);
      if Since(sets, keeps, n - 1) && keeps(n - 1) {
        var k: nat :| SetAndKept(sets, keeps, k, n - 1);
        assert SetAndKept(sets, keeps, k, n);
      }
      if Since(sets, keeps, n) && !sets(n - 1) {
        var k: nat :| SetAndKept(sets, keeps, k, n);
        assert SetAndKept(sets, keeps, k, n - 1);
      }
    }
  }
}
