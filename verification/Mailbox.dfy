/**
 * packages/mailbox: taking a message in (accept.ts) and taking delivery (receive.ts), over the
 * statements of packages/store/src/schema/hub.ts. Times are whole seconds, as `datetime('now')`
 * gives them; each statement reads the clock for itself.
 */
module Mailbox {
  import opened Wrappers
  import Counting

  datatype Status = Pending | Delivered

  datatype Message = Message(
    from: string, to: string, sentBy: Option<string>, content: string, replyTo: Option<string>,
    status: Status, via: string, ts: int, leasedUntil: Option<int>)

  type Messages = map<string, Message>

  datatype Stat = Stat(tenant: string, to: string, from: string, via: string)

  datatype Receipt = Receipt(digest: string, messageId: string, status: Status)

  // ----- The statements -----

  predicate Leasable(m: Message, identity: string, now: int) {
    m.to == identity && m.status.Pending? && (m.leasedUntil.Some? ==> m.leasedUntil.value < now)
  }

  function LeasableIds(ms: Messages, identity: string, now: int): set<string> {
    set id | id in ms && Leasable(ms[id], identity, now)
  }

  function IdsOf(s: seq<string>): set<string> { Counting.ToSet(s) }

  predicate MayAck(ms: Messages, id: string, identity: string) {
    id in ms && ms[id].to == identity && ms[id].status.Pending?
  }

  function Acked(ms: Messages, ids: set<string>, identity: string): Messages {
    map id | id in ms ::
      if id in ids && MayAck(ms, id, identity) then ms[id].(status := Delivered, leasedUntil := None) else ms[id]
  }

  /** Every message of `page` leased, the i-th by the statement that read the clock at `times(i)`. */
  function Leased(ms: Messages, page: seq<string>, times: seq<int>, seconds: int): Messages
    requires |times| == |page|
  {
    if page == [] then ms
    else
      var last := |page| - 1;
      LeasedOne(Leased(ms, page[..last], times[..last], seconds), page[last], times[last] + seconds)
  }

  /** `leaseMessage`. */
  function LeasedOne(ms: Messages, id: string, until: int): Messages {
    if id in ms then ms[id := ms[id].(leasedUntil := Some(until))] else ms
  }

  /** A page: the oldest leasable messages first, `limit` of them if there are as many. */
  ghost predicate IsPage(ms: Messages, identity: string, now: int, limit: nat, page: seq<string>) {
    && (forall i :: 0 <= i < |page| ==> page[i] in LeasableIds(ms, identity, now))
    && (forall i, j :: 0 <= i < j < |page| ==> page[i] != page[j] && ms[page[i]].ts <= ms[page[j]].ts)
    && |page| <= limit
    && (|page| < limit ==> forall id :: id in LeasableIds(ms, identity, now) ==> id in page)
    && (forall i, id :: 0 <= i < |page| && id in LeasableIds(ms, identity, now) && id !in page ==>
          ms[page[i]].ts <= ms[id].ts)
  }

  // ----- The store -----

  class Store {
    var messages: Messages
    var stats: map<string, Stat>
    var idempotency: map<(string, string), Receipt>
    /** Every call of `onSettled`: the message and who acknowledged it. */
    ghost var settled: seq<(string, string)>

    /** No key names a missing message, no two keys name one message, nothing is counted that was not stored. */
    ghost predicate Valid()
      reads this
    {
      && stats.Keys == messages.Keys
      && (forall k :: k in idempotency ==>
            idempotency[k].messageId in messages && messages[idempotency[k].messageId].sentBy == Some(k.0))
      && (forall k, l :: k in idempotency && l in idempotency && k != l ==>
            idempotency[k].messageId != idempotency[l].messageId)
      && (forall i :: 0 <= i < |settled| ==> SettledRow(messages, settled[i]))
      && (forall i, j :: 0 <= i < j < |settled| ==> settled[i].0 != settled[j].0)
    }

    constructor ()
      ensures Valid() && messages == map[] && settled == []
    {
      messages, stats, idempotency, settled := map[], map[], map[], [];
    }

    /**
     * `accept`: three inserts, each of which may meet a constraint, and the caller's own write,
     * which may throw, in one transaction. All of it happens or none of it does.
     */
    method Accept(id: string, m: Message, tenant: string, clientMessageId: Option<string>, digest: Option<string>,
                  callerThrows: bool) returns (ok: bool)
      requires Valid() && m.leasedUntil.None?
      modifies this
      ensures Valid() && settled == old(settled)
      ensures var keyed := digest.Some? && clientMessageId.Some?;
        ok <==> (id !in old(messages) && !callerThrows
                 && (keyed ==> m.sentBy.Some? && (m.sentBy.value, clientMessageId.value) !in old(idempotency)))
      ensures if ok then
          && messages == old(messages)[id := m]
          && stats == old(stats)[id := Stat(tenant, m.to, m.from, m.via)]
          && idempotency == if digest.Some? && clientMessageId.Some?
               then old(idempotency)[(m.sentBy.value, clientMessageId.value) := Receipt(digest.value, id, m.status)]
               else old(idempotency)
        else
          messages == old(messages) && stats == old(stats) && idempotency == old(idempotency)
    {
      var messages0, stats0 := messages, stats;
      if id in messages {
        return false;
      }
      messages := messages[id := m];
      // The key of the statistics row is the message's own, so this insert cannot fail.
      stats := stats[id := Stat(tenant, m.to, m.from, m.via)];
      if callerThrows {
        messages, stats := messages0, stats0;
        return false;
      }
      if digest.Some? && clientMessageId.Some? {
        if m.sentBy.None? || (m.sentBy.value, clientMessageId.value) in idempotency {
          messages, stats := messages0, stats0;
          return false;
        }
        idempotency := idempotency[(m.sentBy.value, clientMessageId.value) := Receipt(digest.value, id, m.status)];
      }
      return true;
    }

    /** `ackMessage`, and the hook when it changed a row. */
    method Ack(identity: string, id: string)
      requires Valid()
      modifies this`messages, this`settled
      ensures Valid()
      ensures messages == Acked(old(messages), {id}, identity)
      ensures settled == old(settled) + if MayAck(old(messages), id, identity) then [(id, identity)] else []
    {
      if MayAck(messages, id, identity) {
        messages := messages[id := messages[id].(status := Delivered, leasedUntil := None)];
        settled := settled + [(id, identity)];
      }
    }

    method Lease(id: string, until: int)
      requires Valid()
      modifies this`messages
      ensures Valid() && messages == LeasedOne(old(messages), id, until)
    {
      if id in messages {
        messages := messages[id := messages[id].(leasedUntil := Some(until))];
      }
    }

    /** The acknowledgement loop. */
    method AckAll(identity: string, ackIds: seq<string>)
      requires Valid()
      modifies this`messages, this`settled
      ensures Valid()
      ensures messages == Acked(old(messages), IdsOf(ackIds), identity)
      ensures settled == old(settled) + Settlements(old(messages), ackIds, identity)
    {
      ghost var ms0, settled0 := messages, settled;
      AckNothing(ms0, identity);
      assert ackIds[..0] == [];
      for k := 0 to |ackIds|
        invariant Valid()
        invariant messages == Acked(ms0, IdsOf(ackIds[..k]), identity)
        invariant settled == settled0 + Settlements(ms0, ackIds[..k], identity)
      {
        AckStep(ms0, ackIds, k, identity);
        AppendTwice(settled0, Settlements(ms0, ackIds[..k], identity),
                    if MayAck(messages, ackIds[k], identity) then [(ackIds[k], identity)] else []);
        Ack(identity, ackIds[k]);
      }
      assert ackIds[..|ackIds|] == ackIds;
    }
  }

  /** The hook's calls for a list of acknowledgements: the first mention of each message that may be settled. */
  function Settlements(ms: Messages, ids: seq<string>, identity: string): seq<(string, string)> {
    if ids == [] then []
    else
      var id := ids[|ids| - 1];
      var before := ids[..|ids| - 1];
      Settlements(ms, before, identity) + if MayAck(ms, id, identity) && id !in before then [(id, identity)] else []
  }

  lemma AppendTwice(a: seq<(string, string)>, b: seq<(string, string)>, c: seq<(string, string)>)
    ensures a + b + c == a + (b + c)
  {
  }

  lemma AckNothing(ms: Messages, identity: string)
    ensures Acked(ms, IdsOf([]), identity) == ms && Settlements(ms, [], identity) == []
  {
  }

  lemma AckStep(ms: Messages, ids: seq<string>, k: nat, identity: string)
    requires k < |ids|
    ensures var acked := Acked(ms, IdsOf(ids[..k]), identity);
      && Acked(ms, IdsOf(ids[..k + 1]), identity) == Acked(acked, {ids[k]}, identity)
      && Settlements(ms, ids[..k + 1], identity)
           == Settlements(ms, ids[..k], identity) + if MayAck(acked, ids[k], identity) then [(ids[k], identity)] else []
  {
    assert ids[..k + 1] == ids[..k] + [ids[k]] && ids[..k + 1][..k] == ids[..k];
    assert IdsOf(ids[..k + 1]) == IdsOf(ids[..k]) + {ids[k]};
  }

  /** Each acknowledged message is reported once, however often its id is sent, and nothing else is. */
  lemma {:induction false} SettlementsAreExact(ms: Messages, ids: seq<string>, identity: string)
    ensures var ss := Settlements(ms, ids, identity);
      && (forall s :: s in ss <==> s.1 == identity && s.0 in ids && MayAck(ms, s.0, identity))
      && (forall i, j :: 0 <= i < j < |ss| ==> ss[i] != ss[j])
  {
    if ids != [] {
      var before, last := ids[..|ids| - 1], ids[|ids| - 1];
      var ss := Settlements(ms, before, identity);
      SettlementsAreExact(ms, before, identity);
      assert ids == before + [last];
      if last !in before {
        assert forall i :: 0 <= i < |ss| ==> ss[i] in ss && ss[i].0 in before;
      }
    }
  }

  ghost predicate SettledRow(ms: Messages, s: (string, string)) {
    s.0 in ms && ms[s.0].status.Delivered? && ms[s.0].to == s.1
  }

  // ----- Taking delivery -----

  class Receiver {
    const store: Store

    constructor (store: Store)
      ensures this.store == store
    {
      this.store := store;
    }

    /** `leasableMessages`: SELECT ... ORDER BY ts ASC LIMIT, ties in any order. */
    method LeasableMessages(identity: string, limit: nat, now: int) returns (page: seq<string>)
      ensures IsPage(store.messages, identity, now, limit, page)
    {
      var ms := store.messages;
      var left := LeasableIds(ms, identity, now);
      page := [];
      while |page| < limit && left != {}
        invariant |page| <= limit
        invariant forall i :: 0 <= i < |page| ==> page[i] in LeasableIds(ms, identity, now) && page[i] !in left
        invariant forall id :: id in LeasableIds(ms, identity, now) <==> id in left || id in page
        invariant forall i, j :: 0 <= i < j < |page| ==> page[i] != page[j] && ms[page[i]].ts <= ms[page[j]].ts
        invariant forall i, id :: 0 <= i < |page| && id in left ==> ms[page[i]].ts <= ms[id].ts
        decreases left
      {
        var id := Oldest(ms, left);
        left := left - {id};
        page := page + [id];
      }
    }

    /**
     * `receive`: settle what is acknowledged, lease the next page, count what is left. The clock
     * is read by the page query, by each lease and by the count, in that order.
     */
    method Receive(identity: string, limit: nat, ackIds: seq<string>, leaseSeconds: int, clock: nat -> int)
      returns (page: seq<string>, remaining: nat)
      requires store.Valid()
      modifies store`messages, store`settled
      ensures store.Valid()
      ensures store.settled == old(store.settled) + Settlements(old(store.messages), ackIds, identity)
      ensures var acked := Acked(old(store.messages), IdsOf(ackIds), identity);
        && IsPage(acked, identity, clock(0), limit, page)
        && store.messages == Leased(acked, page, Times(clock, |page|), leaseSeconds)
        && remaining == |LeasableIds(store.messages, identity, clock(|page| + 1))|
    {
      store.AckAll(identity, ackIds);
      ghost var acked := store.messages;
      page := LeasableMessages(identity, limit, clock(0));
      LeasePage(page, leaseSeconds, clock);
      remaining := |LeasableIds(store.messages, identity, clock(|page| + 1))|;
    }

    method LeasePage(page: seq<string>, leaseSeconds: int, clock: nat -> int)
      requires store.Valid()
      modifies store`messages
      ensures store.Valid() && store.messages == Leased(old(store.messages), page, Times(clock, |page|), leaseSeconds)
    {
      ghost var ms := store.messages;
      ghost var times := Times(clock, |page|);
      assert page[..0] == [] && times[..0] == [];
      for k := 0 to |page|
        invariant store.Valid() && store.messages == Leased(ms, page[..k], times[..k], leaseSeconds)
      {
        assert page[..k + 1][..k] == page[..k] && times[..k + 1][..k] == times[..k];
        store.Lease(page[k], clock(k + 1) + leaseSeconds);
      }
      assert page[..|page|] == page && times[..|page|] == times;
    }
  }

  function Times(clock: nat -> int, n: nat): (times: seq<int>)
    ensures |times| == n && forall i :: 0 <= i < n ==> times[i] == clock(i + 1)
  {
    seq(n, i requires 0 <= i < n => clock(i + 1))
  }

  method Oldest(ms: Messages, ids: set<string>) returns (id: string)
    requires ids != {} && forall i :: i in ids ==> i in ms
    ensures id in ids && forall i :: i in ids ==> ms[id].ts <= ms[i].ts
  {
    id :| id in ids;
    var left := ids - {id};
    while left != {}
      invariant id in ids && left <= ids
      invariant forall i :: i in ids && i !in left ==> ms[id].ts <= ms[i].ts
      decreases left
    {
      var next :| next in left;
      left := left - {next};
      if ms[next].ts < ms[id].ts {
        id := next;
      }
    }
  }

  // ----- One page -----

  /** Pending, addressed to the recipient, and on no lease that lasts until now. */
  ghost predicate IsOnOffer(ms: Messages, identity: string, now: int, id: string) {
    && IsPendingFor(ms, identity, id)
    && (ms[id].leasedUntil == None || ms[id].leasedUntil.value < now)
  }

  /**
   * A page is as many messages on offer as it may hold, or all there are; oldest first, each once; and
   * none that is left out is older than one that is on it.
   */
  lemma PageIsTheOldest(ms: Messages, identity: string, now: int, limit: nat, page: seq<string>)
    requires IsPage(ms, identity, now, limit, page)
    ensures forall i :: 0 <= i < |page| ==> IsOnOffer(ms, identity, now, page[i])
    ensures forall i, j :: 0 <= i < j < |page| ==> ms[page[i]].ts <= ms[page[j]].ts && page[i] != page[j]
    ensures forall i, id :: 0 <= i < |page| && IsOnOffer(ms, identity, now, id) && id !in page ==>
      ms[page[i]].ts <= ms[id].ts
    ensures var offered := LeasableIds(ms, identity, now);
      && (forall id :: id in offered <==> IsOnOffer(ms, identity, now, id))
      && |page| == if |offered| < limit then |offered| else limit
  {
    var offered := LeasableIds(ms, identity, now);
    Counting.DistinctCount(page);
    assert IdsOf(page) <= offered;
    Counting.SubsetCount(IdsOf(page), offered);
    if |page| < limit { assert IdsOf(page) == offered; }
  }

  ghost predicate IsPendingFor(ms: Messages, identity: string, id: string) {
    id in ms && ms[id].to == identity && ms[id].status == Pending
  }

  /** What a connecting recipient is handed are its pending messages from the oldest on, leased or not. */
  lemma ReplayIsTheOldest(ms: Messages, identity: string, handed: seq<string>)
    requires IsReplay(ms, identity, handed)
    ensures forall i :: 0 <= i < |handed| ==> IsPendingFor(ms, identity, handed[i])
    ensures forall i, j :: 0 <= i < j < |handed| ==> ms[handed[i]].ts <= ms[handed[j]].ts && handed[i] != handed[j]
    ensures forall i, id :: 0 <= i < |handed| && IsPendingFor(ms, identity, id) && id !in handed ==>
      ms[handed[i]].ts <= ms[id].ts
  {
  }

  // ----- One call -----

  lemma {:induction false} LeasedIs(ms: Messages, page: seq<string>, times: seq<int>, seconds: int, id: string)
    requires |times| == |page| && id in ms
    requires forall i, j :: 0 <= i < j < |page| ==> page[i] != page[j]
    ensures var after := Leased(ms, page, times, seconds);
      && after.Keys == ms.Keys
      && (id !in page ==> after[id] == ms[id])
      && (forall i :: 0 <= i < |page| && page[i] == id ==>
            after[id] == ms[id].(leasedUntil := Some(times[i] + seconds)))
  {
    if page != [] {
      var last := |page| - 1;
      LeasedIs(ms, page[..last], times[..last], seconds, id);
      var before := Leased(ms, page[..last], times[..last], seconds);
      assert Leased(ms, page, times, seconds) == LeasedOne(before, page[last], times[last] + seconds);
      if page[last] == id {
        assert id !in page[..last];
      } else {
        assert forall i :: 0 <= i < |page| && page[i] == id ==>
          i < last && page[..last][i] == id && times[..last][i] == times[i];
      }
    }
  }

  /** Messages of a page whose new lease had already run out when the rest was counted. */
  function RunOut(page: seq<string>, times: seq<int>, seconds: int, now: int): set<string>
    requires |times| == |page|
  {
    set i | 0 <= i < |page| && times[i] + seconds < now :: page[i]
  }

  /** Who is leasable once a page is leased: those that were and are not on it, and those whose lease has run out. */
  lemma LeasableAfterLease(acked: Messages, identity: string, page: seq<string>, times: seq<int>, seconds: int,
                           now: int, id: string)
    requires |times| == |page|
    requires forall i, j :: 0 <= i < j < |page| ==> page[i] != page[j]
    requires forall i :: 0 <= i < |page| ==> page[i] in LeasableIds(acked, identity, now)
    ensures id in LeasableIds(Leased(acked, page, times, seconds), identity, now) <==>
      (id in LeasableIds(acked, identity, now) && id !in page) || id in RunOut(page, times, seconds, now)
  {
    SameKeys(acked, page, times, seconds);
    if id in acked {
      LeasedIs(acked, page, times, seconds, id);
      if id in page {
        var i :| 0 <= i < |page| && page[i] == id;
        assert Leased(acked, page, times, seconds)[id] == acked[id].(leasedUntil := Some(times[i] + seconds));
      }
    }
  }

  lemma StillLeasable(acked: Messages, identity: string, t: int, u: int)
    requires t <= u
    ensures LeasableIds(acked, identity, t) <= LeasableIds(acked, identity, u)
  {
  }

  /**
   * The page and what `remaining` reports add up exactly: to the messages leasable after the
   * acknowledgements, plus those of the page whose new lease ran out before the count.
   */
  lemma PageAndRemainingAddUp(acked: Messages, identity: string, limit: nat, page: seq<string>, seconds: int,
                              clock: nat -> int)
    requires IsPage(acked, identity, clock(0), limit, page)
    requires forall i, j :: 0 <= i <= j ==> clock(i) <= clock(j)
    ensures var now := clock(|page| + 1);
      var after := Leased(acked, page, Times(clock, |page|), seconds);
      |page| + |LeasableIds(after, identity, now)|
        == |LeasableIds(acked, identity, now)| + |RunOut(page, Times(clock, |page|), seconds, now)|
  {
    var now := clock(|page| + 1);
    StillLeasable(acked, identity, clock(0), now);
    AddUp(acked, identity, page, Times(clock, |page|), seconds, now);
  }

  lemma AddUp(acked: Messages, identity: string, page: seq<string>, times: seq<int>, seconds: int, now: int)
    requires |times| == |page|
    requires forall i, j :: 0 <= i < j < |page| ==> page[i] != page[j]
    requires forall i :: 0 <= i < |page| ==> page[i] in LeasableIds(acked, identity, now)
    ensures |page| + |LeasableIds(Leased(acked, page, times, seconds), identity, now)|
         == |LeasableIds(acked, identity, now)| + |RunOut(page, times, seconds, now)|
  {
    var offered, after := LeasableIds(acked, identity, now),
      LeasableIds(Leased(acked, page, times, seconds), identity, now);
    var run, inPage := RunOut(page, times, seconds, now), IdsOf(page);
    Counting.DistinctCount(page);
    forall id ensures id in after <==> (id in offered && id !in inPage) || id in run {
      LeasableAfterLease(acked, identity, page, times, seconds, now, id);
    }
    SetArithmetic(offered, inPage, run, after);
  }

  lemma SetArithmetic(offered: set<string>, inPage: set<string>, run: set<string>, after: set<string>)
    requires run <= inPage <= offered
    requires forall id :: id in after <==> (id in offered && id !in inPage) || id in run
    ensures |inPage| + |after| == |offered| + |run|
  {
    var rest := offered - inPage;
    assert after == rest + run && rest !! run;
    assert offered == rest + inPage && rest !! inPage;
  }

  lemma {:induction false} SameKeys(ms: Messages, page: seq<string>, times: seq<int>, seconds: int)
    requires |times| == |page|
    ensures Leased(ms, page, times, seconds).Keys == ms.Keys
  {
    if page != [] { SameKeys(ms, page[..|page| - 1], times[..|page| - 1], seconds); }
  }

  /** So they add up to what was leasable exactly when the first lease lasts until the count. */
  lemma NothingRunsOutIff(page: seq<string>, seconds: int, clock: nat -> int)
    requires forall i, j :: 0 <= i <= j ==> clock(i) <= clock(j)
    ensures RunOut(page, Times(clock, |page|), seconds, clock(|page| + 1)) == {} <==>
            page == [] || clock(1) + seconds >= clock(|page| + 1)
  {
    var times, now := Times(clock, |page|), clock(|page| + 1);
    forall i | 0 <= i < |page| ensures times[i] >= clock(1) {}
    if page != [] && clock(1) + seconds < now {
      assert page[0] in RunOut(page, times, seconds, now);
    }
  }

  /** One message, leased for ten seconds and counted twenty seconds later: on the page, and remaining. */
  lemma CountedTwice()
    ensures var ms, clock := map["m1" := LETTER], (i: nat) => if i <= 1 then 0 else 20;
      && IsPage(ms, "b", clock(0), 1, ["m1"])
      && |LeasableIds(ms, "b", clock(2))| == 1
      && |LeasableIds(Leased(ms, ["m1"], Times(clock, 1), 10), "b", clock(2))| == 1
  {
    var ms: Messages, clock := map["m1" := LETTER], (i: nat) => if i <= 1 then 0 else 20;
    var after := Leased(ms, ["m1"], Times(clock, 1), 10);
    assert Times(clock, 1) == [0];
    OneLease(ms, "m1", 0, 10);
    assert LeasableIds(ms, "b", 0) == LeasableIds(ms, "b", 20) == LeasableIds(after, "b", 20) == {"m1"};
  }

  /** A settled message is on no lease, and an acknowledgement changes nothing else of any message. */
  lemma AckClearsLease(ms: Messages, ids: set<string>, identity: string, id: string)
    requires id in ms
    ensures var after := Acked(ms, ids, identity);
      && id in after && after[id].(status := ms[id].status, leasedUntil := ms[id].leasedUntil) == ms[id]
      && (after[id].status != ms[id].status ==> after[id].leasedUntil == None && after[id].status == Delivered)
      && (after[id].status == ms[id].status ==> after[id].leasedUntil == ms[id].leasedUntil)
  {
  }

  /** A caller settles exactly the pending messages addressed to it: whether it was ever handed them is not asked. */
  lemma AckNeedsNoLease(ms: Messages, id: string, identity: string)
    requires id in ms
    ensures Acked(ms, {id}, identity)[id].status.Delivered? <==>
      ms[id].status.Delivered? || (ms[id].to == identity && ms[id].status.Pending?)
  {
  }

  lemma NeverHandedOutYetSettled()
    ensures var m := Message("a", "b", Some("a"), "hello", None, Pending, "mesh", 0, None);
      Acked(map["m1" := m], {"m1"}, "b")["m1"].status.Delivered? && m.leasedUntil.None?
  {
    var ms: Messages := map["m1" := Message("a", "b", Some("a"), "hello", None, Pending, "mesh", 0, None)];
    assert MayAck(ms, "m1", "b");
  }

  // ----- The hub's own replay -----

  /**
   * What `deliverPending` of packages/hub/src/rpc/connect.ts hands a connecting recipient: pending
   * messages, oldest first, up to the first frame that does not land. It does not look at leases.
   */
  ghost predicate IsReplay(ms: Messages, identity: string, handed: seq<string>) {
    && (forall i :: 0 <= i < |handed| ==> MayAck(ms, handed[i], identity))
    && (forall i, j :: 0 <= i < j < |handed| ==> handed[i] != handed[j] && ms[handed[i]].ts <= ms[handed[j]].ts)
    && (forall i, id :: 0 <= i < |handed| && MayAck(ms, id, identity) && id !in handed ==>
          ms[handed[i]].ts <= ms[id].ts)
  }

  /** `UPDATE messages SET status = 'delivered' WHERE id = ?` for each. */
  function Replayed(ms: Messages, handed: seq<string>): Messages {
    map id | id in ms :: if id in handed then ms[id].(status := Delivered) else ms[id]
  }

  // ----- Runs -----

  datatype Op =
    | Accept(id: string, message: Message)
    | Receive(identity: string, acks: set<string>, limit: nat, page: seq<string>, times: seq<int>, seconds: int)
    | Replay(identity: string, handed: seq<string>, at: int)

  /** What one operation may do in a state: `times` holds the clock readings of page, leases and count. */
  ghost predicate Enabled(ms: Messages, op: Op, clock: int) {
    match op
    case Accept(id, m) => id !in ms && m.leasedUntil.None? && m.ts >= clock
    case Receive(identity, acks, limit, page, times, seconds) =>
      && |times| == |page| + 2 && times[0] >= clock
      && (forall i, j :: 0 <= i <= j < |times| ==> times[i] <= times[j])
      && IsPage(Acked(ms, acks, identity), identity, times[0], limit, page)
    case Replay(identity, handed, at) => at >= clock && IsReplay(ms, identity, handed)
  }

  function Next(ms: Messages, op: Op): Messages
    requires op.Receive? ==> |op.times| == |op.page| + 2
  {
    match op
    case Accept(id, m) => ms[id := m]
    case Receive(identity, acks, _, page, times, seconds) =>
      Leased(Acked(ms, acks, identity), page, times[1..|page| + 1], seconds)
    case Replay(_, handed, _) => Replayed(ms, handed)
  }

  /** The clock readings of one call: for the page, for each lease, and for the count. */
  function Readings(clock: nat -> int, n: nat): seq<int> { [clock(0)] + Times(clock, n) + [clock(n + 1)] }

  lemma ReadingsInOrder(clock: nat -> int, n: nat)
    requires forall i, j :: 0 <= i <= j ==> clock(i) <= clock(j)
    ensures var times := Readings(clock, n);
      && |times| == n + 2 && times[0] == clock(0) && times[1..n + 1] == Times(clock, n)
      && (forall i, j :: 0 <= i <= j < |times| ==> times[i] <= times[j])
  {
    var times := Readings(clock, n);
    assert forall i :: 0 <= i < |times| ==> times[i] == clock(i);
  }

  /** A call of `receive` on a clock that never goes back is such an operation. */
  lemma ReceiveIsAnOperation(ms: Messages, identity: string, ackIds: seq<string>, limit: nat, page: seq<string>,
                             seconds: int, clock: nat -> int)
    requires forall i, j :: 0 <= i <= j ==> clock(i) <= clock(j)
    requires IsPage(Acked(ms, IdsOf(ackIds), identity), identity, clock(0), limit, page)
    ensures var op := Receive(identity, IdsOf(ackIds), limit, page, Readings(clock, |page|), seconds);
      && Enabled(ms, op, clock(0))
      && Next(ms, op) == Leased(Acked(ms, IdsOf(ackIds), identity), page, Times(clock, |page|), seconds)
  {
    ReadingsInOrder(clock, |page|);
    var op := Receive(identity, IdsOf(ackIds), limit, page, Readings(clock, |page|), seconds);
    assert op.times[0] == clock(0);
  }

  function Done(op: Op): int
    requires op.Receive? ==> op.times != []
  {
    match op
    case Accept(_, m) => m.ts
    case Receive(_, _, _, _, times, _) => times[|times| - 1]
    case Replay(_, _, at) => at
  }

  /** A run: every operation is possible where it happens, and the clock never goes back. */
  ghost predicate IsRun(ms: Messages, ops: seq<Op>, clock: int)
    decreases |ops|
  {
    ops == [] || (Enabled(ms, ops[0], clock) && IsRun(Next(ms, ops[0]), ops[1..], Done(ops[0])))
  }

  ghost function Final(ms: Messages, ops: seq<Op>, clock: int): Messages
    requires IsRun(ms, ops, clock)
    decreases |ops|
  {
    if ops == [] then ms else Final(Next(ms, ops[0]), ops[1..], Done(ops[0]))
  }

  ghost predicate Hands(op: Op, id: string) { (op.Receive? && id in op.page) || (op.Replay? && id in op.handed) }

  /** What a live lease is worth: the message is settled, or still leased, or the lease has run out. */
  ghost predicate LeaseHolds(ms: Messages, id: string, until: int, clock: int) {
    id in ms && (ms[id].status.Delivered? || ms[id].leasedUntil == Some(until) || clock > until)
  }

  lemma StepKeepsLease(ms: Messages, op: Op, clock: int, id: string, until: int)
    requires Enabled(ms, op, clock) && LeaseHolds(ms, id, until, clock)
    ensures Hands(op, id) ==> op.Replay? || op.times[0] > until
    ensures LeaseHolds(Next(ms, op), id, until, Done(op))
  {
    if op.Receive? {
      var acked := Acked(ms, op.acks, op.identity);
      LeasedIs(acked, op.page, op.times[1..|op.page| + 1], op.seconds, id);
      if id in op.page {
        var i :| 0 <= i < |op.page| && op.page[i] == id;
        assert id in LeasableIds(acked, op.identity, op.times[0]);
      }
      assert op.times[0] <= op.times[|op.times| - 1];
    }
  }

  /** In any run from any point, only the hub's replay hands a message out again while its lease is live. */
  lemma {:induction false} NoHandOutDuringLease(ms: Messages, ops: seq<Op>, clock: int, id: string, until: int, k: nat)
    requires IsRun(ms, ops, clock) && LeaseHolds(ms, id, until, clock)
    requires k < |ops| && Hands(ops[k], id)
    ensures ops[k].Replay? || (|ops[k].times| > 0 && ops[k].times[0] > until)
    decreases |ops|
  {
    StepKeepsLease(ms, ops[0], clock, id, until);
    if k > 0 { NoHandOutDuringLease(Next(ms, ops[0]), ops[1..], Done(ops[0]), id, until, k - 1); }
  }

  lemma StartsRun(ms: Messages, op: Op, rest: seq<Op>, clock: int)
    requires Enabled(ms, op, clock) && IsRun(Next(ms, op), rest, Done(op))
    ensures IsRun(ms, [op] + rest, clock)
    ensures Final(ms, [op] + rest, clock) == Final(Next(ms, op), rest, Done(op))
  {
    assert ([op] + rest)[1..] == rest;
  }

  const LETTER := Message("a", "b", Some("a"), "hello", None, Pending, "mesh", 0, None)

  /** One message, handed out at 0 under a lease of ten seconds. */
  lemma LetterIsLeased()
    ensures var ms, op := map["m1" := LETTER], Receive("b", {}, 1, ["m1"], [0, 0, 0], 10);
      Enabled(ms, op, 0) && Next(ms, op) == map["m1" := LETTER.(leasedUntil := Some(10))]
  {
    var ms: Messages := map["m1" := LETTER];
    assert Acked(ms, {}, "b") == ms;
    assert LeasableIds(ms, "b", 0) == {"m1"};
    OneLease(ms, "m1", 0, 10);
    assert [0, 0, 0][1..2] == [0];
  }

  /** And the replay does: a message leased for ten seconds is handed out again one second later. */
  lemma ReplayIgnoresLeases()
    ensures var accept, receive, replay :=
        Accept("m1", LETTER), Receive("b", {}, 1, ["m1"], [0, 0, 0], 10), Replay("b", ["m1"], 1);
      && IsRun(map[], [accept] + ([receive] + ([replay] + [])), 0)
      && IsRun(map[], [accept] + ([receive] + []), 0)
      && LeaseHolds(Final(map[], [accept] + ([receive] + []), 0), "m1", 10, 1)
      && Hands(receive, "m1") && Hands(replay, "m1")
  {
    var accept, receive, replay :=
      Accept("m1", LETTER), Receive("b", {}, 1, ["m1"], [0, 0, 0], 10), Replay("b", ["m1"], 1);
    var ms, leased := map["m1" := LETTER], map["m1" := LETTER.(leasedUntil := Some(10))];
    LetterIsLeased();
    assert Next(map[], accept) == ms;
    StartsRun(leased, replay, [], 0);
    StartsRun(ms, receive, [replay] + [], 0);
    StartsRun(ms, receive, [], 0);
    StartsRun(map[], accept, [receive] + ([replay] + []), 0);
    StartsRun(map[], accept, [receive] + [], 0);
  }

  lemma OneLease(ms: Messages, id: string, at: int, seconds: int)
    requires id in ms
    ensures Leased(ms, [id], [at], seconds) == ms[id := ms[id].(leasedUntil := Some(at + seconds))]
  {
    assert [id][..0] == [] && [at][..0] == [];
  }

  /** Being handed out starts such a lease. */
  lemma HandOutLeases(ms: Messages, op: Op, clock: int, i: nat)
    requires Enabled(ms, op, clock) && op.Receive? && i < |op.page|
    ensures op.page[i] in Next(ms, op) && Next(ms, op)[op.page[i]].leasedUntil == Some(op.times[i + 1] + op.seconds)
    ensures LeaseHolds(Next(ms, op), op.page[i], op.times[i + 1] + op.seconds, Done(op))
  {
    var acked, times := Acked(ms, op.acks, op.identity), op.times[1..|op.page| + 1];
    assert op.page[i] in LeasableIds(acked, op.identity, op.times[0]);
    PageIsLeased(acked, op.page, times, op.seconds, i);
    assert times[i] == op.times[i + 1];
  }

  lemma PageIsLeased(ms: Messages, page: seq<string>, times: seq<int>, seconds: int, i: nat)
    requires |times| == |page| && i < |page| && page[i] in ms
    requires forall i, j :: 0 <= i < j < |page| ==> page[i] != page[j]
    ensures var after := Leased(ms, page, times, seconds);
      page[i] in after && after[page[i]] == ms[page[i]].(leasedUntil := Some(times[i] + seconds))
  {
    LeasedIs(ms, page, times, seconds, page[i]);
  }

  /** Whether an operation settles a message. */
  ghost predicate Settles(ms: Messages, op: Op, id: string) {
    || (op.Receive? && id in op.acks && MayAck(ms, id, op.identity))
    || (op.Replay? && id in op.handed && MayAck(ms, id, op.identity))
  }

  lemma SettledStaysSettled(ms: Messages, op: Op, clock: int, id: string)
    requires Enabled(ms, op, clock) && id in ms
    ensures id in Next(ms, op) && Next(ms, op)[id].to == ms[id].to
    ensures Next(ms, op)[id].status.Delivered? <==> ms[id].status.Delivered? || Settles(ms, op, id)
  {
    match op {
      case Accept(_, _) =>
      case Receive(identity, acks, _, page, times, seconds) =>
        LeasedIs(Acked(ms, acks, identity), page, times[1..|page| + 1], seconds, id);
      case Replay(_, _, _) =>
    }
  }

  /** How often a run settles a message. */
  ghost function SettledTimes(ms: Messages, ops: seq<Op>, clock: int, id: string): nat
    requires IsRun(ms, ops, clock)
    decreases |ops|
  {
    if ops == [] then 0
    else (if Settles(ms, ops[0], id) then 1 else 0) + SettledTimes(Next(ms, ops[0]), ops[1..], Done(ops[0]), id)
  }

  /**
   * A message is settled at most once in any run, by its recipient's acknowledgement or by the hub's
   * replay to that recipient, and it has been settled exactly when its row says so.
   */
  lemma {:induction false} SettledAtMostOnce(ms: Messages, ops: seq<Op>, clock: int, id: string)
    requires IsRun(ms, ops, clock) && id in ms
    ensures SettledTimes(ms, ops, clock, id) <= 1
    ensures ms[id].status.Delivered? ==> SettledTimes(ms, ops, clock, id) == 0
    ensures id in Final(ms, ops, clock)
    ensures ms[id].status.Pending? ==> (SettledTimes(ms, ops, clock, id) == 1
                                        <==> Final(ms, ops, clock)[id].status.Delivered?)
    ensures ms[id].status.Delivered? ==> Final(ms, ops, clock)[id].status.Delivered?
    ensures forall op :: op in ops && Settles(ms, op, id) ==> op.identity == ms[id].to
    decreases |ops|
  {
    if ops != [] {
      SettledStaysSettled(ms, ops[0], clock, id);
      SettledAtMostOnce(Next(ms, ops[0]), ops[1..], Done(ops[0]), id);
    }
  }

  ghost function Free(ms: Messages, now: int): set<string> {
    set id | id in ms && ms[id].status.Pending? && !(ms[id].leasedUntil.Some? && ms[id].leasedUntil.value >= now)
  }

  ghost function OnLease(ms: Messages, now: int): set<string> {
    set id | id in ms && ms[id].status.Pending? && ms[id].leasedUntil.Some? && ms[id].leasedUntil.value >= now
  }

  ghost function Settled(ms: Messages): set<string> { set id | id in ms && ms[id].status.Delivered? }

  ghost function AcceptedIds(ops: seq<Op>): set<string> { set i | 0 <= i < |ops| && ops[i].Accept? :: ops[i].id }

  lemma {:induction false} RunKeepsMessages(ms: Messages, ops: seq<Op>, clock: int)
    requires IsRun(ms, ops, clock)
    ensures Final(ms, ops, clock).Keys == ms.Keys + AcceptedIds(ops)
    decreases |ops|
  {
    if ops != [] {
      var op := ops[0];
      if op.Receive? { SameKeys(Acked(ms, op.acks, op.identity), op.page, op.times[1..|op.page| + 1], op.seconds); }
      RunKeepsMessages(Next(ms, op), ops[1..], Done(op));
      assert AcceptedIds(ops) == AcceptedIds(ops[1..]) + if op.Accept? then {op.id} else {} by {
        assert forall i :: 0 < i < |ops| ==> ops[i] == ops[1..][i - 1];
        assert forall i :: 0 <= i < |ops[1..]| ==> ops[1..][i] == ops[i + 1];
      }
    }
  }

  /** Nothing is lost: at any moment what was accepted is free, on lease or settled, and only one of them. */
  lemma AcceptedIsAccountedFor(ops: seq<Op>, clock: int, now: int)
    requires IsRun(map[], ops, clock)
    ensures var ms := Final(map[], ops, clock);
      |AcceptedIds(ops)| == |Free(ms, now)| + |OnLease(ms, now)| + |Settled(ms)|
  {
    RunKeepsMessages(map[], ops, clock);
    var ms := Final(map[], ops, clock);
    assert ms.Keys == Free(ms, now) + OnLease(ms, now) + Settled(ms);
    assert Free(ms, now) !! OnLease(ms, now) && (Free(ms, now) + OnLease(ms, now)) !! Settled(ms);
    assert ms.Keys == AcceptedIds(ops);
  }
}
