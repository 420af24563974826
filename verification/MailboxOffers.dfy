/**
 * packages/mailbox/src/receive.ts over runs: how soon a message nobody has settled is handed out
 * again, and the one way it can be kept waiting for ever.
 */
module MailboxOffers {
  import opened Wrappers
  import Counting
  import opened Mailbox

  predicate IsCallOf(op: Op, identity: string) { op.Receive? && op.identity == identity }

  /** How many messages the calls of a run have room for. */
  function Room(ops: seq<Op>, identity: string): nat {
    if ops == [] then 0
    else (if IsCallOf(ops[0], identity) then ops[0].limit else 0) + Room(ops[1..], identity)
  }

  /** What they hand out. */
  function Handed(ops: seq<Op>, identity: string): set<string> {
    if ops == [] then {}
    else (if IsCallOf(ops[0], identity) then IdsOf(ops[0].page) else {}) + Handed(ops[1..], identity)
  }

  /** No two of them hand out the same message. */
  ghost predicate HandedOnce(ops: seq<Op>, identity: string) {
    ops != [] ==>
      && (IsCallOf(ops[0], identity) ==> IdsOf(ops[0].page) !! Handed(ops[1..], identity))
      && HandedOnce(ops[1..], identity)
  }

  /** The other pending messages for the same recipient that are not younger. */
  ghost function Ahead(ms: Messages, id: string): set<string>
    requires id in ms
  {
    set x | x in ms && x != id && ms[x].status.Pending? && ms[x].to == ms[id].to && ms[x].ts <= ms[id].ts
  }

  /** Leasable from now on, and older than anything still to arrive. */
  ghost predicate Waits(ms: Messages, id: string, clock: int) {
    id in ms && Leasable(ms[id], ms[id].to, clock) && ms[id].ts < clock
  }

  /** Handed out, by a call or by the replay, or acknowledged by its recipient. */
  ghost predicate Reaches(op: Op, identity: string, id: string) {
    Hands(op, id) || (IsCallOf(op, identity) && id in op.acks)
  }

  /** A call that passes a waiting message over hands out as many as it may, none of them younger. */
  lemma PassedOver(ms: Messages, op: Op, clock: int, id: string)
    requires Waits(ms, id, clock) && Enabled(ms, op, clock) && IsCallOf(op, ms[id].to)
    requires !Reaches(op, ms[id].to, id)
    ensures |op.page| == op.limit == |IdsOf(op.page)| && IdsOf(op.page) <= Ahead(ms, id)
  {
    var acked := Acked(ms, op.acks, op.identity);
    assert acked[id] == ms[id] && id in LeasableIds(acked, op.identity, op.times[0]);
    Counting.DistinctCount(op.page);
    forall x | x in IdsOf(op.page) ensures x in Ahead(ms, id) {
      var i :| 0 <= i < |op.page| && op.page[i] == x;
      assert x in LeasableIds(acked, op.identity, op.times[0]);
    }
  }

  lemma StillWaits(ms: Messages, op: Op, clock: int, id: string)
    requires Waits(ms, id, clock) && Enabled(ms, op, clock) && !Reaches(op, ms[id].to, id)
    ensures Waits(Next(ms, op), id, Done(op)) && Next(ms, op)[id] == ms[id]
  {
    if op.Receive? {
      LeasedIs(Acked(ms, op.acks, op.identity), op.page, op.times[1..|op.page| + 1], op.seconds, id);
    }
  }

  lemma SameStamp(ms: Messages, op: Op, clock: int, id: string)
    requires Enabled(ms, op, clock) && id in ms
    ensures id in Next(ms, op) && Next(ms, op)[id].ts == ms[id].ts
  {
    if op.Receive? {
      LeasedIs(Acked(ms, op.acks, op.identity), op.page, op.times[1..|op.page| + 1], op.seconds, id);
    }
  }

  lemma NobodyGetsAhead(ms: Messages, op: Op, clock: int, id: string)
    requires Waits(ms, id, clock) && Enabled(ms, op, clock) && !Reaches(op, ms[id].to, id)
    ensures id in Next(ms, op) && Ahead(Next(ms, op), id) <= Ahead(ms, id)
  {
    StillWaits(ms, op, clock, id);
    if op.Receive? { SameKeys(Acked(ms, op.acks, op.identity), op.page, op.times[1..|op.page| + 1], op.seconds); }
    forall x | x in Ahead(Next(ms, op), id) ensures x in Ahead(ms, id) {
      if x in ms {
        SettledStaysSettled(ms, op, clock, x);
        SameStamp(ms, op, clock, x);
      }
    }
  }

  /** While the message waits, its recipient's calls hand out as much as they may, and only what is ahead of it. */
  lemma {:induction false} OnlyThoseAhead(ms: Messages, ops: seq<Op>, clock: int, id: string)
    requires IsRun(ms, ops, clock) && Waits(ms, id, clock) && HandedOnce(ops, ms[id].to)
    requires forall op :: op in ops ==> !Reaches(op, ms[id].to, id)
    ensures Handed(ops, ms[id].to) <= Ahead(ms, id) && |Handed(ops, ms[id].to)| == Room(ops, ms[id].to)
    decreases |ops|
  {
    if ops != [] {
      var op := ops[0];
      StillWaits(ms, op, clock, id);
      NobodyGetsAhead(ms, op, clock, id);
      OnlyThoseAhead(Next(ms, op), ops[1..], Done(op), id);
      if IsCallOf(op, ms[id].to) { PassedOver(ms, op, clock, id); }
    }
  }

  /**
   * A message nobody has settled and whose lease has lapsed is handed out, or settled, by the time its
   * recipient's calls have room for one message more than are ahead of it, whatever arrives meanwhile
   * and whoever else calls, as long as none of those calls hands out what another has.
   */
  lemma UnsettledIsOfferedAgain(ms: Messages, ops: seq<Op>, clock: int, id: string) returns (k: nat)
    requires IsRun(ms, ops, clock) && Waits(ms, id, clock)
    requires HandedOnce(ops, ms[id].to) && Room(ops, ms[id].to) > |Ahead(ms, id)|
    ensures k < |ops| && Reaches(ops[k], ms[id].to, id)
  {
    if forall op :: op in ops ==> !Reaches(op, ms[id].to, id) {
      OnlyThoseAhead(ms, ops, clock, id);
      Counting.SubsetCount(Handed(ops, ms[id].to), Ahead(ms, id));
    }
    var op :| op in ops && Reaches(op, ms[id].to, id);
    k :| 0 <= k < |ops| && ops[k] == op;
  }

  // ----- When no call hands out what another has -----

  lemma {:induction false} HandedByACall(ops: seq<Op>, identity: string, id: string) returns (k: nat)
    requires id in Handed(ops, identity)
    ensures k < |ops| && IsCallOf(ops[k], identity) && id in ops[k].page
  {
    k := 0;
    if !(IsCallOf(ops[0], identity) && id in ops[0].page) {
      var n := HandedByACall(ops[1..], identity, id);
      k := n + 1;
    }
  }

  /** Every call begins while the leases of the calls before it last. */
  ghost predicate LeasesLast(ops: seq<Op>, identity: string) {
    forall i, j :: 0 <= i < j < |ops| && IsCallOf(ops[i], identity) && IsCallOf(ops[j], identity) ==>
      BeginsWithin(ops[i], ops[j])
  }

  predicate BeginsWithin(op: Op, later: Op)
    requires op.Receive? && later.Receive?
  {
    op.times != [] && later.times != [] ==> later.times[0] <= op.times[0] + op.seconds
  }

  lemma {:induction false} LeasesKeepApart(ms: Messages, ops: seq<Op>, clock: int, identity: string)
    requires IsRun(ms, ops, clock) && LeasesLast(ops, identity)
    ensures HandedOnce(ops, identity)
    decreases |ops|
  {
    if ops != [] {
      var op, rest := ops[0], ops[1..];
      assert forall i :: 0 <= i < |rest| ==> rest[i] == ops[i + 1];
      LeasesKeepApart(Next(ms, op), rest, Done(op), identity);
      if IsCallOf(op, identity) {
        forall x | x in IdsOf(op.page) ensures x !in Handed(rest, identity) {
          if x in Handed(rest, identity) {
            var k := HandedByACall(rest, identity, x);
            var i :| 0 <= i < |op.page| && op.page[i] == x;
            HandOutLeases(ms, op, clock, i);
            NoHandOutDuringLease(Next(ms, op), rest, Done(op), x, op.times[i + 1] + op.seconds, k);
          }
        }
      }
    }
  }

  /** Every call acknowledges what the one before it handed out, the first of them what is owed. */
  ghost predicate AcksEachPage(ops: seq<Op>, identity: string, owed: set<string>) {
    ops != [] ==>
      if IsCallOf(ops[0], identity) then
        owed <= ops[0].acks && AcksEachPage(ops[1..], identity, IdsOf(ops[0].page))
      else
        AcksEachPage(ops[1..], identity, owed)
  }

  lemma {:induction false} SettledIsNotHanded(
    ms: Messages, ops: seq<Op>, clock: int, identity: string, owed: set<string>, id: string)
    requires IsRun(ms, ops, clock) && AcksEachPage(ops, identity, owed)
    requires id in ms && (ms[id].status.Delivered? || (id in owed && ms[id].to == identity))
    ensures id !in Handed(ops, identity)
    decreases |ops|
  {
    if ops != [] {
      var op := ops[0];
      SettledStaysSettled(ms, op, clock, id);
      if IsCallOf(op, identity) {
        assert Acked(ms, op.acks, identity)[id].status.Delivered?;
        assert id !in op.page;
        SettledIsNotHanded(Next(ms, op), ops[1..], Done(op), identity, IdsOf(op.page), id);
      } else {
        SettledIsNotHanded(Next(ms, op), ops[1..], Done(op), identity, owed, id);
      }
    }
  }

  lemma {:induction false} AcksKeepApart(ms: Messages, ops: seq<Op>, clock: int, identity: string, owed: set<string>)
    requires IsRun(ms, ops, clock) && AcksEachPage(ops, identity, owed)
    ensures HandedOnce(ops, identity)
    decreases |ops|
  {
    if ops != [] {
      var op := ops[0];
      if IsCallOf(op, identity) {
        AcksKeepApart(Next(ms, op), ops[1..], Done(op), identity, IdsOf(op.page));
        forall x | x in IdsOf(op.page) ensures x !in Handed(ops[1..], identity) {
          var i :| 0 <= i < |op.page| && op.page[i] == x;
          HandOutLeases(ms, op, clock, i);
          assert x in LeasableIds(Acked(ms, op.acks, identity), identity, op.times[0]);
          SettledStaysSettled(ms, op, clock, x);
          SettledIsNotHanded(Next(ms, op), ops[1..], Done(op), identity, IdsOf(op.page), x);
        }
      } else {
        AcksKeepApart(Next(ms, op), ops[1..], Done(op), identity, owed);
      }
    }
  }

  // ----- And when one does -----

  function Pair(lease: Option<int>): Messages {
    map["m0" := LETTER.(leasedUntil := lease), "m1" := LETTER.(ts := 1)]
  }

  /** A caller that takes one message at a time, settles none, and comes back when the lease is over. */
  function Again(at: int): Op { Receive("b", {}, 1, ["m0"], [at, at, at], 1) }

  function Calls(n: nat, at: int): seq<Op> { if n == 0 then [] else [Again(at)] + Calls(n - 1, at + 2) }

  lemma OnceMore(lease: Option<int>, at: int, clock: int)
    requires clock <= at && (lease.Some? ==> lease.value < at)
    ensures Enabled(Pair(lease), Again(at), clock) && Next(Pair(lease), Again(at)) == Pair(Some(at + 1))
    ensures Done(Again(at)) == at
  {
    var ms := Pair(lease);
    assert Acked(ms, {}, "b") == ms;
    assert LeasableIds(ms, "b", at) == {"m0", "m1"};
    OneLease(ms, "m0", at, 1);
    assert [at, at, at][1..2] == [at];
  }

  lemma {:induction false} CallsAreARun(n: nat, lease: Option<int>, at: int, clock: int)
    requires clock <= at && (lease.Some? ==> lease.value < at)
    ensures IsRun(Pair(lease), Calls(n, at), clock)
  {
    if n > 0 {
      OnceMore(lease, at, clock);
      CallsAreARun(n - 1, Some(at + 1), at + 2, at);
      RunGoesOn(Pair(lease), Again(at), Pair(Some(at + 1)), Calls(n - 1, at + 2), clock, at);
    }
  }

  lemma RunGoesOn(ms: Messages, op: Op, next: Messages, rest: seq<Op>, clock: int, done: int)
    requires Enabled(ms, op, clock) && Next(ms, op) == next && Done(op) == done && IsRun(next, rest, done)
    ensures IsRun(ms, [op] + rest, clock)
  {
    StartsRun(ms, op, rest, clock);
  }

  lemma {:induction false} CallsPassOver(n: nat, at: int)
    ensures Room(Calls(n, at), "b") == n && forall op :: op in Calls(n, at) ==> !Reaches(op, "b", "m1")
  {
    if n > 0 {
      CallsPassOver(n - 1, at + 2);
      assert Calls(n, at)[1..] == Calls(n - 1, at + 2);
    }
  }

  /** Such a caller is handed the oldest message for ever: however many calls it makes, the next one waits. */
  lemma UnsettledPageStarvesTheRest(n: nat)
    ensures Waits(Pair(None), "m1", 2) && IsRun(Pair(None), Calls(n, 2), 2) && |Ahead(Pair(None), "m1")| == 1
    ensures Room(Calls(n, 2), "b") == n && forall op :: op in Calls(n, 2) ==> !Reaches(op, "b", "m1")
  {
    CallsAreARun(n, None, 2, 2);
    CallsPassOver(n, 2);
    assert Ahead(Pair(None), "m1") == {"m0"};
  }
}
