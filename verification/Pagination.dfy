/**
 * Keyset pagination, both ways: packages/http/src/audit-query.ts pages upwards on
 * (stored_at, event_id), packages/http/src/chat-audits.ts downwards on (ts, id). Tables may grow
 * between two pages. Text is ordered as SQLite's BINARY collation orders it, by code point.
 */
module Pagination {
  import opened Wrappers
  import Counting

  datatype Key = Key(ts: string, id: string)

  datatype Direction = Ascending | Descending

  // ----- The order -----

  predicate Less(a: string, b: string) {
    if b == "" then false
    else if a == "" then true
    else a[0] < b[0] || (a[0] == b[0] && Less(a[1..], b[1..]))
  }

  predicate KeyLess(a: Key, b: Key) { Less(a.ts, b.ts) || (a.ts == b.ts && Less(a.id, b.id)) }

  /** `a` comes on an earlier page than `b`, or earlier on the same page. */
  predicate Before(d: Direction, a: Key, b: Key) {
    if d.Ascending? then KeyLess(a, b) else KeyLess(b, a)
  }

  /** The first k characters are alike, and there `a` ends or goes on with the smaller character. */
  predicate SplitsBelow(a: string, b: string, k: nat) {
    k <= |a| && k < |b| && a[..k] == b[..k] && (k == |a| || a[k] < b[k])
  }

  lemma {:induction false} LessIff(a: string, b: string)
    ensures Less(a, b) <==> exists k: nat :: SplitsBelow(a, b, k)
  {
    if b != "" {
      if a != "" && a[0] == b[0] {
        LessIff(a[1..], b[1..]);
        if k: nat :| SplitsBelow(a[1..], b[1..], k) {
          assert a[..k + 1] == [a[0]] + a[1..][..k] && b[..k + 1] == [b[0]] + b[1..][..k];
          assert SplitsBelow(a, b, k + 1);
        }
        if k: nat :| SplitsBelow(a, b, k) { SplitsBelowOnward(a, b, k); }
      } else if Less(a, b) {
        assert SplitsBelow(a, b, 0);
      } else if k: nat :| SplitsBelow(a, b, k) {
        FirstIsNoGreater(a, b, k);
      }
    }
  }

  lemma FirstIsNoGreater(a: string, b: string, k: nat)
    requires a != "" && b != "" && SplitsBelow(a, b, k)
    ensures a[0] <= b[0]
  {
    if k > 0 { assert a[..k][0] == b[..k][0]; }
  }

  lemma SplitsBelowOnward(a: string, b: string, k: nat)
    requires a != "" && b != "" && a[0] == b[0] && SplitsBelow(a, b, k)
    ensures k > 0 && SplitsBelow(a[1..], b[1..], k - 1)
  {
    if k > 0 { assert a[1..][..k - 1] == a[..k][1..] && b[1..][..k - 1] == b[..k][1..]; }
  }

  /** Upwards a row comes after the earlier ones, downwards after the later; within an instant the id decides. */
  lemma OrderIsByTime(d: Direction, a: Key, b: Key)
    ensures Less(a.ts, b.ts) ==> (Before(d, a, b) <==> d == Ascending)
    ensures a.ts == b.ts && Less(a.id, b.id) ==> (Before(d, a, b) <==> d == Ascending)
    ensures a.ts == b.ts && a.id == b.id ==> !Before(d, a, b)
  {
    LessIsTotal(a.ts, b.ts);
    LessIsTotal(a.id, b.id);
  }

  lemma {:induction false} LessIsTotal(a: string, b: string)
    ensures a == b || Less(a, b) || Less(b, a)
    ensures !(Less(a, b) && Less(b, a)) && !Less(a, a)
  {
    if a != "" && b != "" {
      LessIsTotal(a[1..], b[1..]);
      LessIsTotal(a[1..], a[1..]);
      if a[0] == b[0] && a[1..] == b[1..] { assert a == [a[0]] + a[1..] && b == [b[0]] + b[1..]; }
    } else if a != "" {
      LessIsTotal(a[1..], a[1..]);
    }
  }

  lemma {:induction false} LessIsTransitive(a: string, b: string, c: string)
    requires Less(a, b) && Less(b, c)
    ensures Less(a, c)
  {
    if a != "" && a[0] == b[0] == c[0] { LessIsTransitive(a[1..], b[1..], c[1..]); }
  }

  lemma BeforeIsTotal(d: Direction, a: Key, b: Key)
    ensures a == b || Before(d, a, b) || Before(d, b, a)
    ensures !(Before(d, a, b) && Before(d, b, a)) && !Before(d, a, a)
  {
    LessIsTotal(a.ts, b.ts);
    LessIsTotal(a.id, b.id);
  }

  lemma BeforeIsTransitive(d: Direction, a: Key, b: Key, c: Key)
    requires Before(d, a, b) && Before(d, b, c)
    ensures Before(d, a, c)
  {
    var x, z := if d.Ascending? then a else c, if d.Ascending? then c else a;
    if Less(x.ts, b.ts) && Less(b.ts, z.ts) { LessIsTransitive(x.ts, b.ts, z.ts); }
    if Less(x.id, b.id) && Less(b.id, z.id) { LessIsTransitive(x.id, b.id, z.id); }
  }

  // ----- ORDER BY -----

  ghost predicate IsFirst(d: Direction, ks: set<Key>, k: Key) {
    k in ks && forall o :: o in ks && o != k ==> Before(d, k, o)
  }

  lemma FirstExists(d: Direction, ks: set<Key>)
    requires ks != {}
    ensures exists k :: IsFirst(d, ks, k)
    decreases |ks|
  {
    var k :| k in ks;
    var rest := ks - {k};
    if rest == {} {
      assert ks == {k};
      assert IsFirst(d, ks, k);
    } else {
      FirstExists(d, rest);
      var f :| IsFirst(d, rest, f);
      BeforeIsTotal(d, k, f);
      if Before(d, k, f) {
        forall o | o in ks && o != k ensures Before(d, k, o) {
          if o != f { BeforeIsTransitive(d, k, f, o); }
        }
        assert IsFirst(d, ks, k);
      } else {
        assert IsFirst(d, ks, f);
      }
    }
  }

  /** `SELECT ... ORDER BY`: the rows of a set, in order. */
  ghost function Sorted(d: Direction, ks: set<Key>): seq<Key>
    decreases |ks|
  {
    if ks == {} then []
    else
      FirstExists(d, ks);
      var k :| IsFirst(d, ks, k);
      [k] + Sorted(d, ks - {k})
  }

  ghost predicate InOrder(d: Direction, s: seq<Key>) {
    forall i, j :: 0 <= i < j < |s| ==> Before(d, s[i], s[j])
  }

  lemma FirstThenRest(d: Direction, k: Key, rest: seq<Key>)
    requires InOrder(d, rest) && forall o :: o in rest ==> Before(d, k, o)
    ensures InOrder(d, [k] + rest)
  {
    var s := [k] + rest;
    forall i, j | 0 <= i < j < |s| ensures Before(d, s[i], s[j]) {
      assert s[j] == rest[j - 1] && s[j] in rest;
    }
  }

  lemma {:induction false} SortedIsSorted(d: Direction, ks: set<Key>)
    ensures |Sorted(d, ks)| == |ks| && InOrder(d, Sorted(d, ks))
    ensures forall k :: k in Sorted(d, ks) <==> k in ks
    decreases |ks|
  {
    if ks != {} {
      FirstExists(d, ks);
      var s := Sorted(d, ks);
      var k := s[0];
      var rest := Sorted(d, ks - {k});
      assert IsFirst(d, ks, k) && s == [k] + rest;
      SortedIsSorted(d, ks - {k});
      assert forall o :: o in rest ==> o in ks - {k};
      FirstThenRest(d, k, rest);
    }
  }

  // ----- One page -----

  function MinNat(a: nat, b: nat): nat { if a < b then a else b }

  ghost function Beyond(d: Direction, ks: set<Key>, cursor: Option<Key>): set<Key> {
    set k | k in ks && (cursor.Some? ==> Before(d, cursor.value, k))
  }

  /** One row over the limit is read, to say whether another page exists. */
  ghost function Rows(d: Direction, ks: set<Key>, cursor: Option<Key>, limit: nat): seq<Key> {
    var all := Sorted(d, Beyond(d, ks, cursor));
    all[..MinNat(limit + 1, |all|)]
  }

  ghost function PageOf(d: Direction, ks: set<Key>, cursor: Option<Key>, limit: nat): seq<Key> {
    var rows := Rows(d, ks, cursor, limit);
    rows[..MinNat(limit, |rows|)]
  }

  ghost predicate More(d: Direction, ks: set<Key>, cursor: Option<Key>, limit: nat) {
    |Rows(d, ks, cursor, limit)| > limit
  }

  /** A page is the first rows beyond the cursor, in order, and `More` is exact. */
  lemma PageIsExact(d: Direction, ks: set<Key>, cursor: Option<Key>, limit: nat)
    ensures var page := PageOf(d, ks, cursor, limit);
      var beyond := Beyond(d, ks, cursor);
      && InOrder(d, page)
      && (forall k :: k in page ==> k in beyond)
      && |page| == MinNat(limit, |beyond|)
      && (More(d, ks, cursor, limit) <==> |beyond| > limit)
      && (forall i, k :: 0 <= i < |page| && k in beyond && k !in page ==> Before(d, page[i], k))
      && (!More(d, ks, cursor, limit) ==> forall k :: k in beyond ==> k in page)
  {
    var beyond := Beyond(d, ks, cursor);
    SortedIsSorted(d, beyond);
    var all := Sorted(d, beyond);
    var page := PageOf(d, ks, cursor, limit);
    assert page == all[..|page|];
    FrontIsFirst(d, all, |page|);
  }

  /** What is in front stays in order and goes before the rest. */
  lemma FrontIsFirst(d: Direction, all: seq<Key>, n: nat)
    requires InOrder(d, all) && n <= |all|
    ensures InOrder(d, all[..n])
    ensures forall i, k :: 0 <= i < n && k in all && k !in all[..n] ==> Before(d, all[..n][i], k)
  {
    forall i, k | 0 <= i < n && k in all && k !in all[..n] ensures Before(d, all[..n][i], k) {
      assert forall m :: 0 <= m < n ==> all[m] in all[..n];
      var j :| 0 <= j < |all| && all[j] == k;
    }
  }

  // ----- Following the cursors -----

  /** The tables only grow. */
  ghost predicate Grows(tables: seq<set<Key>>) {
    forall i, j :: 0 <= i <= j < |tables| ==> tables[i] <= tables[j]
  }

  /** All rows seen by a reader who asks page by page, finding `tables[i]` at its page i. */
  ghost function Walk(d: Direction, tables: seq<set<Key>>, cursor: Option<Key>, limit: nat): seq<Key>
    requires limit > 0
    decreases |tables|
  {
    if tables == [] then []
    else
      var page := PageOf(d, tables[0], cursor, limit);
      if More(d, tables[0], cursor, limit) && page != []
      then page + Walk(d, tables[1..], Some(page[|page| - 1]), limit)
      else page
  }

  /** The reader is told there is nothing more before the tables run out. */
  ghost predicate Completes(d: Direction, tables: seq<set<Key>>, cursor: Option<Key>, limit: nat)
    requires limit > 0
    decreases |tables|
  {
    tables != [] &&
    var page := PageOf(d, tables[0], cursor, limit);
    More(d, tables[0], cursor, limit) && page != [] ==>
      Completes(d, tables[1..], Some(page[|page| - 1]), limit)
  }

  lemma WalkStep(d: Direction, tables: seq<set<Key>>, cursor: Option<Key>, limit: nat)
    requires limit > 0 && tables != []
    ensures var page := PageOf(d, tables[0], cursor, limit);
      if More(d, tables[0], cursor, limit) then
        && page != []
        && Walk(d, tables, cursor, limit) == page + Walk(d, tables[1..], Some(page[|page| - 1]), limit)
        && (Completes(d, tables, cursor, limit) <==> Completes(d, tables[1..], Some(page[|page| - 1]), limit))
      else Walk(d, tables, cursor, limit) == page && Completes(d, tables, cursor, limit)
  {
    PageIsExact(d, tables[0], cursor, limit);
  }

  /** A page and what comes after its last row go forward together, and stay beyond the cursor. */
  lemma PageThenRest(d: Direction, cursor: Option<Key>, page: seq<Key>, rest: seq<Key>)
    requires page != [] && InOrder(d, page) && InOrder(d, rest)
    requires forall k :: k in rest ==> Before(d, page[|page| - 1], k)
    requires cursor.Some? ==> forall k :: k in page ==> Before(d, cursor.value, k)
    ensures InOrder(d, page + rest)
    ensures cursor.Some? ==> forall k :: k in page + rest ==> Before(d, cursor.value, k)
  {
    var last := page[|page| - 1];
    forall i, k | 0 <= i < |page| && k in rest ensures Before(d, page[i], k) {
      if i < |page| - 1 { BeforeIsTransitive(d, page[i], last, k); }
    }
    WalkIsJoined(d, page, rest);
    forall k | k in rest && cursor.Some? ensures Before(d, cursor.value, k) {
      assert last in page;
      BeforeIsTransitive(d, cursor.value, last, k);
    }
  }

  /** Nothing is visited twice and nothing behind the cursor. */
  lemma {:induction false} WalkGoesForward(d: Direction, tables: seq<set<Key>>, cursor: Option<Key>, limit: nat)
    requires limit > 0
    ensures InOrder(d, Walk(d, tables, cursor, limit))
    ensures forall k :: k in Walk(d, tables, cursor, limit) && cursor.Some? ==> Before(d, cursor.value, k)
    decreases |tables|
  {
    if tables != [] {
      PageIsExact(d, tables[0], cursor, limit);
      var page := PageOf(d, tables[0], cursor, limit);
      if More(d, tables[0], cursor, limit) {
        var last := page[|page| - 1];
        WalkGoesForward(d, tables[1..], Some(last), limit);
        PageThenRest(d, cursor, page, Walk(d, tables[1..], Some(last), limit));
      }
    }
  }

  lemma {:induction false} WalkMissesNothing(d: Direction, tables: seq<set<Key>>, cursor: Option<Key>, limit: nat,
                                             k: Key)
    requires limit > 0 && Grows(tables) && Completes(d, tables, cursor, limit)
    requires k in Beyond(d, tables[0], cursor)
    ensures k in Walk(d, tables, cursor, limit)
    decreases |tables|
  {
    PageIsExact(d, tables[0], cursor, limit);
    var page := PageOf(d, tables[0], cursor, limit);
    if k !in page {
      var last := page[|page| - 1];
      assert Before(d, last, k);
      assert k in tables[1];
      WalkMissesNothing(d, tables[1..], Some(last), limit, k);
    }
  }

  lemma {:induction false} WalkInventsNothing(
    d: Direction, tables: seq<set<Key>>, cursor: Option<Key>, limit: nat, k: Key) returns (i: nat)
    requires limit > 0 && k in Walk(d, tables, cursor, limit)
    ensures i < |tables| && k in tables[i]
    decreases |tables|
  {
    PageIsExact(d, tables[0], cursor, limit);
    var page := PageOf(d, tables[0], cursor, limit);
    i := 0;
    if k !in page {
      var n := WalkInventsNothing(d, tables[1..], Some(page[|page| - 1]), limit, k);
      i := n + 1;
    }
  }

  /**
   * Following the cursors to the end visits every row that was there at the start exactly once,
   * in order, whatever rows are inserted between the pages and wherever they sort.
   */
  lemma WalkVisitsEverythingOnce(d: Direction, tables: seq<set<Key>>, limit: nat, k: Key)
    requires limit > 0 && Grows(tables) && Completes(d, tables, None, limit)
    ensures var walk := Walk(d, tables, None, limit);
      && InOrder(d, walk)
      && (k in tables[0] ==> multiset(walk)[k] == 1)
      && (k in walk ==> exists i :: 0 <= i < |tables| && k in tables[i])
  {
    WalkGoesForward(d, tables, None, limit);
    var walk := Walk(d, tables, None, limit);
    if k in tables[0] {
      WalkMissesNothing(d, tables, None, limit, k);
      OrderedCountsOne(d, walk, k);
    }
    if k in walk { var i := WalkInventsNothing(d, tables, None, limit, k); }
  }

  lemma {:induction false} OrderedCountsOne(d: Direction, s: seq<Key>, k: Key)
    requires InOrder(d, s)
    ensures multiset(s)[k] == if k in s then 1 else 0
  {
    if s != [] {
      var n := |s| - 1;
      assert s == s[..n] + [s[n]];
      OrderedCountsOne(d, s[..n], k);
      if s[n] == k {
        forall i | 0 <= i < n ensures s[i] != k { BeforeIsTotal(d, s[i], s[n]); }
      }
    }
  }

  lemma WalkIsJoined(d: Direction, a: seq<Key>, b: seq<Key>)
    requires InOrder(d, a) && InOrder(d, b)
    requires forall i, k :: 0 <= i < |a| && k in b ==> Before(d, a[i], k)
    ensures InOrder(d, a + b)
  {
    var s := a + b;
    forall i, j | 0 <= i < j < |s| ensures Before(d, s[i], s[j]) {
      if i < |a| <= j { assert s[j] in b; }
    }
  }

  /** A page with another after it uses up `limit` of the rows beyond the cursor. */
  lemma PageUsesUpRows(d: Direction, ks: set<Key>, all: set<Key>, cursor: Option<Key>, limit: nat)
    requires limit > 0 && Beyond(d, ks, cursor) <= all && More(d, ks, cursor, limit)
    ensures var page := PageOf(d, ks, cursor, limit);
      && |page| == limit
      && Beyond(d, all, Some(page[limit - 1])) <= all
      && |Beyond(d, all, Some(page[limit - 1]))| + limit <= |all|
  {
    PageIsExact(d, ks, cursor, limit);
    var page := PageOf(d, ks, cursor, limit);
    var last := page[limit - 1];
    var after, used := Beyond(d, all, Some(last)), Counting.ToSet(page);
    forall i, j | 0 <= i < j < limit ensures page[i] != page[j] { BeforeIsTotal(d, page[i], page[j]); }
    Counting.DistinctCount(page);
    forall i | 0 <= i < limit ensures page[i] !in after && page[i] in all {
      BeforeIsTotal(d, last, page[i]);
      assert page[i] in page;
    }
    assert used !! after && used + after <= all;
    Counting.SubsetCount(used + after, all);
  }

  lemma BeyondShrinks(d: Direction, all: set<Key>, cursor: Option<Key>, last: Key)
    requires cursor.Some? ==> Before(d, cursor.value, last)
    ensures Beyond(d, all, Some(last)) <= Beyond(d, all, cursor)
  {
    forall k | k in Beyond(d, all, Some(last)) ensures k in Beyond(d, all, cursor) {
      if cursor.Some? { BeforeIsTransitive(d, cursor.value, last, k); }
    }
  }

  lemma OnePageLess(n: nat, limit: nat)
    requires n > 0
    ensures (n - 1) * limit == n * limit - limit
  {
  }

  /** Pages with more room than there are rows beyond the cursor come to the end, whatever else the tables hold. */
  lemma {:induction false} WalkTerminates(d: Direction, tables: seq<set<Key>>, all: set<Key>, cursor: Option<Key>,
                                          limit: nat)
    requires limit > 0 && forall i :: 0 <= i < |tables| ==> Beyond(d, tables[i], cursor) <= all
    requires |tables| * limit > |all|
    ensures Completes(d, tables, cursor, limit)
    decreases |tables|
  {
    if More(d, tables[0], cursor, limit) {
      PageUsesUpRows(d, tables[0], all, cursor, limit);
      PageIsExact(d, tables[0], cursor, limit);
      var page := PageOf(d, tables[0], cursor, limit);
      var last := page[limit - 1];
      assert last in page;
      OnePageLess(|tables|, limit);
      forall i | 0 <= i < |tables[1..]| ensures Beyond(d, tables[1..][i], Some(last)) <= Beyond(d, all, Some(last)) {
        assert tables[1..][i] == tables[i + 1];
        BeyondShrinks(d, tables[i + 1], cursor, last);
      }
      WalkTerminates(d, tables[1..], Beyond(d, all, Some(last)), Some(last), limit);
    }
  }

  /** No table holds more beyond the first page than the first table did. */
  ghost predicate NothingNewBelow(d: Direction, tables: seq<set<Key>>, limit: nat)
    requires limit > 0 && tables != []
  {
    var page := PageOf(d, tables[0], None, limit);
    page != [] ==>
      var last := page[|page| - 1];
      forall i :: 1 <= i < |tables| ==> Beyond(d, tables[i], Some(last)) <= Beyond(d, tables[0], Some(last))
  }

  lemma RestCompletes(d: Direction, tables: seq<set<Key>>, limit: nat, last: Key)
    requires limit > 0 && tables != [] && |tables| * limit > |Beyond(d, tables[0], Some(last))| + limit
    requires forall i :: 1 <= i < |tables| ==> Beyond(d, tables[i], Some(last)) <= Beyond(d, tables[0], Some(last))
    ensures Completes(d, tables[1..], Some(last), limit)
  {
    OnePageLess(|tables|, limit);
    forall i | 0 <= i < |tables[1..]|
      ensures Beyond(d, tables[1..][i], Some(last)) <= Beyond(d, tables[0], Some(last))
    {
      assert tables[1..][i] == tables[i + 1];
    }
    WalkTerminates(d, tables[1..], Beyond(d, tables[0], Some(last)), Some(last), limit);
  }

  /** Then room for the rows of the first table is enough, whatever is inserted before the end of the first page. */
  lemma WalkOutrunsInsertions(d: Direction, tables: seq<set<Key>>, limit: nat)
    requires limit > 0 && tables != [] && NothingNewBelow(d, tables, limit)
    requires |tables| * limit > |tables[0]|
    ensures Completes(d, tables, None, limit)
  {
    WalkStep(d, tables, None, limit);
    if More(d, tables[0], None, limit) {
      PageUsesUpRows(d, tables[0], tables[0], None, limit);
      RestCompletes(d, tables, limit, PageOf(d, tables[0], None, limit)[limit - 1]);
    }
  }
}
