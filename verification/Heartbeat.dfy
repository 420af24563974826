/**
 * packages/hub/src/heartbeat.ts over the presence maps: a sweep pings whoever is quiet and drops
 * whoever stayed quiet through a ping.
 */
module Heartbeat {
  import opened Presence

  /** The maps, the sockets pinged and not heard from since, and what a sweep reports. */
  datatype Sweep = Sweep(maps: Maps, awaiting: set<Socket>, pinged: seq<string>, dropped: seq<string>)

  /** One entry of the snapshot. */
  function SweepOne(w: Sweep, identity: string, s: Socket): Sweep {
    if s in w.awaiting
    then w.(maps := AfterDrop(w.maps, s, identity), awaiting := w.awaiting - {s}, dropped := w.dropped + [identity])
    else w.(awaiting := w.awaiting + {s}, pinged := w.pinged + [identity])
  }

  /** A sweep over the first entries of a snapshot of `online`. */
  function SweepFirst(m: Maps, awaiting: set<Socket>, entries: seq<(string, Socket)>): Sweep {
    if entries == [] then Sweep(m, awaiting, [], [])
    else
      var last := entries[|entries| - 1];
      SweepOne(SweepFirst(m, awaiting, entries[..|entries| - 1]), last.0, last.1)
  }

  /** The entries of a map, each once, in the order it iterates. */
  ghost predicate IsSnapshot(online: map<string, Socket>, entries: seq<(string, Socket)>) {
    && (forall k :: 0 <= k < |entries| ==> entries[k].0 in online && online[entries[k].0] == entries[k].1)
    && (forall i :: i in online ==> (i, online[i]) in entries)
    && (forall j, k :: 0 <= j < k < |entries| ==> entries[j].0 != entries[k].0)
  }

  class Heartbeat {
    const presence: PresenceMaps
    var awaiting: set<Socket>

    constructor (presence: PresenceMaps)
      ensures this.presence == presence && awaiting == {}
    {
      this.presence := presence;
      awaiting := {};
    }

    /** `alive` and `forget`. */
    method Alive(s: Socket)
      modifies this
      ensures awaiting == old(awaiting) - {s}
    {
      awaiting := awaiting - {s};
    }

    method Snapshot() returns (entries: seq<(string, Socket)>)
      ensures IsSnapshot(presence.online, entries)
    {
      var online := presence.online;
      entries := [];
      var left := online.Keys;
      while left != {}
        invariant left <= online.Keys
        invariant forall k :: 0 <= k < |entries| ==>
          entries[k].0 in online && entries[k].0 !in left && online[entries[k].0] == entries[k].1
        invariant forall i :: i in online ==> i in left || (i, online[i]) in entries
        invariant forall j, k :: 0 <= j < k < |entries| ==> entries[j].0 != entries[k].0
        decreases left
      {
        var i :| i in left;
        left := left - {i};
        entries := entries + [(i, online[i])];
      }
    }

    method RunSweep() returns (pinged: seq<string>, dropped: seq<string>, entries: seq<(string, Socket)>)
      modifies this, presence, presence.ownership
      ensures IsSnapshot(old(presence.online), entries)
      ensures SweepFirst(old(presence.State()), old(awaiting), entries)
          == Sweep(presence.State(), awaiting, pinged, dropped)
    {
      entries := Snapshot();
      pinged, dropped := [], [];
      ghost var maps0, awaiting0 := presence.State(), awaiting;
      assert entries[..0] == [];
      for k := 0 to |entries|
        invariant SweepFirst(maps0, awaiting0, entries[..k]) == Sweep(presence.State(), awaiting, pinged, dropped)
      {
        var (identity, s) := entries[k];
        assert entries[..k + 1][..k] == entries[..k];
        if s in awaiting {
          presence.DropConnection(s, identity);
          awaiting := awaiting - {s};
          dropped := dropped + [identity];
        } else {
          awaiting := awaiting + {s};
          pinged := pinged + [identity];
        }
      }
      assert entries[..|entries|] == entries;
    }
  }

  // ----- What a sweep does while every socket is online under one identity -----

  /** The sockets of the entries a sweep finds still waiting. */
  function Silent(awaiting: set<Socket>, entries: seq<(string, Socket)>): set<Socket> {
    set k | 0 <= k < |entries| && entries[k].1 in awaiting :: entries[k].1
  }

  function Sockets(entries: seq<(string, Socket)>): set<Socket> {
    set k | 0 <= k < |entries| :: entries[k].1
  }

  ghost predicate OneIdentityEach(entries: seq<(string, Socket)>) {
    forall j, k :: 0 <= j < k < |entries| ==> entries[j].1 != entries[k].1
  }

  lemma ConsistentMeansOneIdentityEach(m: Maps, entries: seq<(string, Socket)>)
    requires Consistent(m) && IsSnapshot(m.online, entries)
    ensures OneIdentityEach(entries)
  {
    forall j, k | 0 <= j < k < |entries| ensures entries[j].1 != entries[k].1 {
      assert m.ownership.identities[entries[j].1] == entries[j].0;
      assert m.ownership.identities[entries[k].1] == entries[k].0;
    }
  }

  lemma DropFromWithout(m: Maps, gone: set<Socket>, s: Socket, identity: string)
    requires Consistent(m) && s !in gone && identity in m.online && m.online[identity] == s
    ensures AfterDrop(Without(m, gone), s, identity) == Without(m, gone + {s})
  {
    WithoutKeepsConsistent(m, gone);
    DropIsExact(Without(m, gone), s, identity);
    WithoutTwice(m, gone, s);
  }

  lemma WithoutTwice(m: Maps, gone: set<Socket>, s: Socket)
    ensures Without(Without(m, gone), {s}) == Without(m, gone + {s})
  {
    LeadingElsewhereTwice(m.ownership.owners, gone, s);
    LeadingElsewhereTwice(m.online, gone, s);
    LeadingElsewhereTwice(m.proxies, gone, s);
    OfOthersTwice(m.ownership.identities, gone, s);
    OfOthersTwice(m.identities, gone, s);
    OfOthersTwice(m.proxied, gone, s);
  }

  lemma LeadingElsewhereTwice(m: map<string, Socket>, gone: set<Socket>, s: Socket)
    ensures LeadingElsewhere(LeadingElsewhere(m, gone), {s}) == LeadingElsewhere(m, gone + {s})
  {
  }

  lemma OfOthersTwice<V>(m: map<Socket, V>, gone: set<Socket>, s: Socket)
    ensures OfOthers(OfOthers(m, gone), {s}) == OfOthers(m, gone + {s})
  {
  }

  lemma WithoutNobody(m: Maps)
    ensures Without(m, {}) == m
  {
    assert OfOthers(m.ownership.identities, {}) == m.ownership.identities;
    assert LeadingElsewhere(m.ownership.owners, {}) == m.ownership.owners;
    assert LeadingElsewhere(m.online, {}) == m.online && OfOthers(m.identities, {}) == m.identities;
    assert LeadingElsewhere(m.proxies, {}) == m.proxies && OfOthers(m.proxied, {}) == m.proxied;
  }

  /** The identities of the entries whose socket is, or is not, still waiting, in the order of the entries. */
  function Reported(awaiting: set<Socket>, entries: seq<(string, Socket)>, silent: bool): seq<string> {
    if entries == [] then []
    else
      var last := entries[|entries| - 1];
      Reported(awaiting, entries[..|entries| - 1], silent) + if (last.1 in awaiting) == silent then [last.0] else []
  }

  /** What a sweep comes to. */
  function Swept(m: Maps, awaiting: set<Socket>, entries: seq<(string, Socket)>): Sweep {
    var silent := Silent(awaiting, entries);
    Sweep(Without(m, silent), awaiting - silent + (Sockets(entries) - silent),
          Reported(awaiting, entries, false), Reported(awaiting, entries, true))
  }

  /**
   * A sweep over consistent maps drops exactly the identities whose socket was pinged before and
   * not heard from, leaves the maps without those sockets and otherwise untouched, and pings
   * exactly the others.
   */
  lemma {:induction false} SweepIsExact(m: Maps, awaiting: set<Socket>, entries: seq<(string, Socket)>,
                                        all: seq<(string, Socket)>)
    requires Consistent(m) && IsSnapshot(m.online, all) && entries <= all
    ensures SweepFirst(m, awaiting, entries) == Swept(m, awaiting, entries)
  {
    if entries == [] {
      WithoutNobody(m);
      assert Silent(awaiting, []) == {} && Sockets([]) == {};
    } else {
      var n := |entries| - 1;
      SweepIsExact(m, awaiting, entries[..n], all);
      ConsistentMeansOneIdentityEach(m, all);
      var last := entries[n];
      assert last == all[n] && entries == entries[..n] + [last];
      assert last.1 !in Sockets(entries[..n]) by {
        assert forall k :: 0 <= k < n ==> entries[..n][k] == all[k];
      }
      SweptOneMore(m, awaiting, entries[..n], last);
    }
  }

  lemma SweptOneMore(m: Maps, awaiting: set<Socket>, before: seq<(string, Socket)>, last: (string, Socket))
    requires Consistent(m) && last.0 in m.online && m.online[last.0] == last.1 && last.1 !in Sockets(before)
    ensures Swept(m, awaiting, before + [last]) == SweepOne(Swept(m, awaiting, before), last.0, last.1)
  {
    OneMoreEntry(awaiting, before, last);
    ReportedOneMore(awaiting, before, last);
    var silent := Silent(awaiting, before);
    assert silent <= Sockets(before);
    WaitingOneMore(awaiting, silent, Sockets(before), last.1);
    if last.1 in awaiting {
      DropFromWithout(m, silent, last.1, last.0);
    } else {
      assert silent + {} == silent;
    }
  }

  lemma ReportedOneMore(awaiting: set<Socket>, before: seq<(string, Socket)>, last: (string, Socket))
    ensures forall silent :: (
      Reported(awaiting, before + [last], silent)
        == Reported(awaiting, before, silent) + if (last.1 in awaiting) == silent then [last.0] else [])
  {
    assert (before + [last])[..|before|] == before;
  }

  lemma WaitingOneMore(awaiting: set<Socket>, silent: set<Socket>, sockets: set<Socket>, s: Socket)
    requires silent <= sockets && s !in sockets
    ensures var waiting := awaiting - silent + (sockets - silent);
      && (s in waiting <==> s in awaiting)
      && (s in awaiting ==> awaiting - (silent + {s}) + (sockets + {s} - (silent + {s})) == waiting - {s})
      && (s !in awaiting ==> awaiting - silent + (sockets + {s} - silent) == waiting + {s})
  {
  }

  lemma OneMoreEntry(awaiting: set<Socket>, before: seq<(string, Socket)>, last: (string, Socket))
    ensures Sockets(before + [last]) == Sockets(before) + {last.1}
    ensures Silent(awaiting, before + [last]) == Silent(awaiting, before) + if last.1 in awaiting then {last.1} else {}
  {
    var entries := before + [last];
    assert forall k :: 0 <= k < |before| ==> entries[k] == before[k];
    assert entries[|before|] == last;
    forall s | s in Sockets(before) + {last.1} ensures s in Sockets(entries) {
      if s in Sockets(before) { var k :| 0 <= k < |before| && before[k].1 == s; assert entries[k].1 == s; }
    }
    forall s | s in Silent(awaiting, before) ensures s in Silent(awaiting, entries) {
      var k :| 0 <= k < |before| && before[k].1 == s && s in awaiting;
      assert entries[k].1 == s;
    }
  }

  // ----- Runs -----

  /** What happens to the hub, one event at a time. Every inbound frame is proof of life before anything else. */
  datatype Event =
    | Connect(s: Socket, identity: string, granted: set<string>)
    | Frame(s: Socket)
    | Evict(s: Socket, identity: string)     // a request of the socket speaks as an identity whose key is not approved
    | Close(s: Socket)
    | Tick(entries: seq<(string, Socket)>)   // a sweep

  datatype Hub = Hub(maps: Maps, awaiting: set<Socket>)

  function Step(h: Hub, e: Event): Hub {
    match e
    case Connect(s, identity, granted) => Hub(AfterConnect(h.maps, s, identity, granted), h.awaiting - {s})
    case Frame(s) => h.(awaiting := h.awaiting - {s})
    case Evict(s, identity) => Hub(AfterDrop(h.maps, s, identity), h.awaiting - {s})
    case Close(s) => Hub(AfterClose(h.maps, s), h.awaiting - {s})
    case Tick(entries) =>
      var w := SweepFirst(h.maps, h.awaiting, entries);
      Hub(w.maps, w.awaiting)
  }

  /** A connect names an identity; a sweep looks at what is online when it starts. */
  ghost predicate Possible(h: Hub, e: Event) {
    match e
    case Connect(_, identity, _) => identity != ""
    case Tick(entries) => IsSnapshot(h.maps.online, entries)
    case _ => true
  }

  /** Each socket speaks as one identity only. */
  predicate OneIdentity(h: Hub, e: Event) {
    (e.Connect? || e.Evict?) && e.s in h.maps.identities ==> h.maps.identities[e.s] == e.identity
  }

  ghost predicate Enabled(h: Hub, e: Event) { Possible(h, e) && OneIdentity(h, e) }

  function After(h: Hub, es: seq<Event>): Hub {
    if es == [] then h else Step(After(h, es[..|es| - 1]), es[|es| - 1])
  }

  ghost predicate IsRun(h: Hub, es: seq<Event>) {
    es == [] || (IsRun(h, es[..|es| - 1]) && Enabled(After(h, es[..|es| - 1]), es[|es| - 1]))
  }

  const START := Hub(Maps(Ownership(0, map[], map[], map[]), map[], map[], map[], map[]), {})

  lemma StepKeepsConsistent(h: Hub, e: Event)
    requires Consistent(h.maps) && Enabled(h, e)
    ensures Consistent(Step(h, e).maps)
  {
    match e {
      case Connect(s, identity, granted) => ConnectKeepsConsistent(h.maps, s, identity, granted);
      case Frame(s) =>
      case Evict(s, identity) => DropKeepsConsistentIff(h.maps, s, identity);
      case Close(s) => CloseAfterDropChangesNothing(h.maps, s);
      case Tick(entries) =>
        SweepIsExact(h.maps, h.awaiting, entries, entries);
        WithoutKeepsConsistent(h.maps, Silent(h.awaiting, entries));
    }
  }

  /** Over every run the maps stay consistent, so a socket is online under at most one identity. */
  lemma {:induction false} RunKeepsConsistent(es: seq<Event>)
    requires IsRun(START, es)
    ensures Consistent(After(START, es).maps)
  {
    if es != [] {
      RunKeepsConsistent(es[..|es| - 1]);
      StepKeepsConsistent(After(START, es[..|es| - 1]), es[|es| - 1]);
    }
  }

  /** A sign of life, or the end of the connection. */
  predicate HeardFrom(e: Event, s: Socket) { !e.Tick? && e.s == s }

  ghost predicate PingsIn(h: Hub, e: Event, s: Socket) {
    e.Tick? && exists k :: 0 <= k < |e.entries| && e.entries[k].1 == s && s !in h.awaiting
  }

  ghost predicate DropsIn(h: Hub, e: Event, s: Socket) {
    e.Tick? && exists k :: 0 <= k < |e.entries| && e.entries[k].1 == s && s in h.awaiting
  }

  /** `s` was pinged by the sweep at `j` and nothing has been heard from it since. */
  ghost predicate PingedAndSilent(es: seq<Event>, s: Socket, j: nat) {
    && j < |es| && PingsIn(After(START, es[..j]), es[j], s)
    && forall k :: j < k < |es| ==> !HeardFrom(es[k], s)
  }

  /** Only a sweep makes a socket wait, and any frame from it ends the wait. */
  lemma {:induction false} AwaitingWasPinged(es: seq<Event>, s: Socket)
    requires IsRun(START, es) && s in After(START, es).awaiting
    ensures exists j: nat :: PingedAndSilent(es, s, j)
  {
    var n := |es| - 1;
    var before, e := es[..n], es[n];
    var h := After(START, before);
    assert After(START, es) == Step(h, e);
    RunKeepsConsistent(before);
    if PingsIn(h, e, s) {
      assert PingedAndSilent(es, s, n);
    } else {
      WaitStartsWithPing(h, e, s);
      AwaitingWasPinged(before, s);
      var j: nat :| PingedAndSilent(before, s, j);
      SilenceGoesOn(es, s, j);
    }
  }

  lemma SilenceGoesOn(es: seq<Event>, s: Socket, j: nat)
    requires es != [] && PingedAndSilent(es[..|es| - 1], s, j) && !HeardFrom(es[|es| - 1], s)
    ensures PingedAndSilent(es, s, j)
  {
    var before := es[..|es| - 1];
    assert es[..j] == before[..j] && es[j] == before[j];
    assert forall k :: j < k < |es| - 1 ==> es[k] == before[k];
  }

  lemma WaitStartsWithPing(h: Hub, e: Event, s: Socket)
    requires Consistent(h.maps) && Enabled(h, e) && s in Step(h, e).awaiting && !PingsIn(h, e, s)
    ensures s in h.awaiting && !HeardFrom(e, s)
  {
    if e.Tick? {
      SweepIsExact(h.maps, h.awaiting, e.entries, e.entries);
      if s in Sockets(e.entries) {
        var k :| 0 <= k < |e.entries| && e.entries[k].1 == s;
      }
    }
  }

  /**
   * The grace. In every run a sweep drops a socket only if an earlier sweep pinged it and nothing
   * has come from it since: a connection has at least one full interval to answer.
   */
  lemma DroppedOnlyAfterSilence(es: seq<Event>, k: nat, s: Socket)
    requires k < |es| && IsRun(START, es[..k]) && DropsIn(After(START, es[..k]), es[k], s)
    ensures exists j: nat :: j < k && PingedAndSilent(es[..k], s, j)
  {
    AwaitingWasPinged(es[..k], s);
  }

  /** And the silence is not overlooked: a socket quiet across two sweeps is in none of the maps after the second. */
  lemma SilentAcrossTwoSweepsIsGone(h: Hub, first: Event, between: seq<Event>, second: Event, s: Socket)
    requires Consistent(h.maps) && first.Tick? && second.Tick?
    requires Enabled(h, first) && IsRun(Step(h, first), between) && Enabled(After(Step(h, first), between), second)
    requires forall k :: 0 <= k < |between| ==> !HeardFrom(between[k], s)
    ensures Gone(Step(After(Step(h, first), between), second).maps, s)
  {
    var h1 := Step(h, first);
    StepKeepsConsistent(h, first);
    SweepLeavesWaiting(h, first, s);
    WaitingLasts(h1, between, s);
    var h2 := After(h1, between);
    SweepRemovesWaiting(h2, second, s);
  }

  ghost predicate WaitingOrGone(h: Hub, s: Socket) { s in h.awaiting || Gone(h.maps, s) }

  lemma SweepLeavesWaiting(h: Hub, e: Event, s: Socket)
    requires Consistent(h.maps) && e.Tick? && Enabled(h, e)
    ensures WaitingOrGone(Step(h, e), s)
  {
    SweepIsExact(h.maps, h.awaiting, e.entries, e.entries);
    if s in h.maps.identities {
      var i := h.maps.identities[s];
      assert i in h.maps.online && h.maps.online[i] == s && (i, s) in e.entries;
      var k :| 0 <= k < |e.entries| && e.entries[k] == (i, s);
      assert s in Sockets(e.entries);
      if s in h.awaiting {
        assert s in Silent(h.awaiting, e.entries);
        WithoutIsGone(h.maps, Silent(h.awaiting, e.entries), s);
      }
    } else {
      UnknownIsGone(h.maps, s);
      WithoutIsGone(h.maps, Silent(h.awaiting, e.entries), s);
    }
  }

  lemma UnknownIsGone(m: Maps, s: Socket)
    requires Consistent(m) && s !in m.identities
    ensures Gone(m, s)
  {
  }

  lemma {:induction false} WaitingLasts(h: Hub, es: seq<Event>, s: Socket)
    requires Consistent(h.maps) && IsRun(h, es) && WaitingOrGone(h, s)
    requires forall k :: 0 <= k < |es| ==> !HeardFrom(es[k], s)
    ensures Consistent(After(h, es).maps) && WaitingOrGone(After(h, es), s)
  {
    if es != [] {
      var n := |es| - 1;
      WaitingLasts(h, es[..n], s);
      var before := After(h, es[..n]);
      StepKeepsConsistent(before, es[n]);
      if es[n].Tick? {
        SweepLeavesWaiting(before, es[n], s);
      } else {
        OthersKeepGone(before, es[n], s);
      }
    }
  }

  lemma OthersKeepGone(h: Hub, e: Event, s: Socket)
    requires Consistent(h.maps) && Enabled(h, e) && !e.Tick? && e.s != s
    ensures s in h.awaiting ==> s in Step(h, e).awaiting
    ensures Gone(h.maps, s) ==> Gone(Step(h, e).maps, s)
  {
    if Gone(h.maps, s) {
      StepKeepsConsistent(h, e);
      match e {
        case Connect(t, identity, granted) =>
        case Frame(t) =>
        case Evict(t, identity) =>
        case Close(t) =>
          if t in h.maps.identities && h.maps.identities[t] != "" { DropIsExact(h.maps, t, h.maps.identities[t]); }
      }
      assert s !in Step(h, e).maps.identities;
      UnknownIsGone(Step(h, e).maps, s);
    }
  }

  lemma SweepRemovesWaiting(h: Hub, e: Event, s: Socket)
    requires Consistent(h.maps) && e.Tick? && Enabled(h, e) && WaitingOrGone(h, s)
    ensures Gone(Step(h, e).maps, s)
  {
    SweepIsExact(h.maps, h.awaiting, e.entries, e.entries);
    if s in h.maps.identities {
      var i := h.maps.identities[s];
      assert (i, s) in e.entries;
      var k :| 0 <= k < |e.entries| && e.entries[k] == (i, s);
      assert s in Silent(h.awaiting, e.entries);
    } else {
      UnknownIsGone(h.maps, s);
    }
    WithoutIsGone(h.maps, Silent(h.awaiting, e.entries), s);
  }
}
