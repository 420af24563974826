/**
 * Runs of the hub in which sockets may speak as several identities, as the hub lets them: what still
 * holds, what the grace of a connection and the presence maps lose, and exactly when.
 */
module PresenceRuns {
  import opened Presence
  import opened Heartbeat

  ghost predicate IsAnyRun(h: Hub, es: seq<Event>) {
    es == [] || (IsAnyRun(h, es[..|es| - 1]) && Possible(After(h, es[..|es| - 1]), es[|es| - 1]))
  }

  lemma OneMore(es: seq<Event>, e: Event)
    requires IsAnyRun(START, es) && Possible(After(START, es), e)
    ensures IsAnyRun(START, es + [e]) && After(START, es + [e]) == Step(After(START, es), e)
  {
    assert (es + [e])[..|es|] == es;
  }

  // ----- Generations -----

  lemma {:induction false} SweepsNumberNobody(m: Maps, awaiting: set<Socket>, entries: seq<(string, Socket)>)
    ensures var o := SweepFirst(m, awaiting, entries).maps.ownership;
      o.generations == m.ownership.generations && o.nextGeneration == m.ownership.nextGeneration
  {
    if entries != [] { SweepsNumberNobody(m, awaiting, entries[..|entries| - 1]); }
  }

  /** Every number of `o` stands in `p`, and every newer one is larger. */
  ghost predicate Numbered(o: Ownership, p: Ownership) {
    && GenerationsDistinct(o) && GenerationsDistinct(p) && o.nextGeneration <= p.nextGeneration
    && (forall s :: s in o.generations ==> s in p.generations && p.generations[s] == o.generations[s])
    && (forall t :: t in p.generations && t !in o.generations ==> o.nextGeneration < p.generations[t])
  }

  lemma ClaimNumbers(o: Ownership, identity: string, s: Socket)
    requires GenerationsDistinct(o)
    ensures Numbered(o, AfterClaim(o, identity, s))
  {
    var seen := WithGeneration(o, s);
    GenerationsGrow(o, s);
    if Contended(o, identity, s) { GenerationsGrow(seen, o.owners[identity]); }
  }

  lemma DropsNumberNobody(m: Maps, s: Socket, identity: string)
    ensures var o := AfterDrop(m, s, identity).ownership;
      o.generations == m.ownership.generations && o.nextGeneration == m.ownership.nextGeneration
  {
  }

  // ----- Every socket that is numbered takes the next number -----

  ghost predicate NumberedInTurn(o: Ownership) { GenerationsDistinct(o) && o.nextGeneration == |o.generations| }

  lemma ClaimNumbersInTurn(o: Ownership, identity: string, s: Socket)
    requires NumberedInTurn(o)
    ensures NumberedInTurn(AfterClaim(o, identity, s))
  {
    NumberInTurn(o, s);
    if Contended(o, identity, s) { NumberInTurn(WithGeneration(o, s), o.owners[identity]); }
  }

  lemma NumberInTurn(o: Ownership, s: Socket)
    requires NumberedInTurn(o)
    ensures NumberedInTurn(WithGeneration(o, s))
    ensures s !in o.generations ==> WithGeneration(o, s).generations[s] == |o.generations| + 1
  {
    GenerationsGrow(o, s);
  }

  /** Over every run the numbers given out are one, two, three and so on, without a gap. */
  lemma {:induction false} GenerationsHaveNoGap(es: seq<Event>)
    ensures NumberedInTurn(After(START, es).maps.ownership)
  {
    if es != [] {
      var h, e := After(START, es[..|es| - 1]), es[|es| - 1];
      GenerationsHaveNoGap(es[..|es| - 1]);
      if e.Connect? {
        ClaimNumbersInTurn(h.maps.ownership, e.identity, e.s);
      } else {
        OnlyConnectsNumber(h, e);
      }
    }
  }

  lemma SameNumbers(o: Ownership, p: Ownership)
    requires GenerationsDistinct(o) && p.generations == o.generations && p.nextGeneration == o.nextGeneration
    ensures Numbered(o, p)
  {
  }

  lemma StepNumbers(h: Hub, e: Event)
    requires GenerationsDistinct(h.maps.ownership)
    ensures Numbered(h.maps.ownership, Step(h, e).maps.ownership)
  {
    if e.Connect? {
      ClaimNumbers(h.maps.ownership, e.identity, e.s);
    } else {
      OnlyConnectsNumber(h, e);
      SameNumbers(h.maps.ownership, Step(h, e).maps.ownership);
    }
  }

  lemma OnlyConnectsNumber(h: Hub, e: Event)
    requires !e.Connect?
    ensures var o := Step(h, e).maps.ownership;
      o.generations == h.maps.ownership.generations && o.nextGeneration == h.maps.ownership.nextGeneration
  {
    match e {
      case Frame(_) =>
      case Evict(s, identity) => DropsNumberNobody(h.maps, s, identity);
      case Close(s) => if s in h.maps.identities { DropsNumberNobody(h.maps, s, h.maps.identities[s]); }
      case Tick(entries) => SweepsNumberNobody(h.maps, h.awaiting, entries);
    }
  }

  lemma {:induction false} RunNumbers(h: Hub, es: seq<Event>, n: nat)
    requires n <= |es| && GenerationsDistinct(h.maps.ownership)
    ensures Numbered(After(h, es[..n]).maps.ownership, After(h, es).maps.ownership)
    decreases |es|
  {
    if es == [] {
      assert es[..n] == es;
    } else {
      var before := es[..|es| - 1];
      if n < |es| {
        RunNumbers(h, before, n);
        assert before[..n] == es[..n];
        StepNumbers(After(h, before), es[|es| - 1]);
      } else {
        RunNumbers(h, before, |before|);
        assert before[..|before|] == before && es[..n] == es;
        StepNumbers(After(h, before), es[|es| - 1]);
      }
    }
  }

  /** Over every run generations are distinct, never change, and a socket seen later has a larger one. */
  lemma GenerationsIncrease(es: seq<Event>, n: nat, s: Socket, t: Socket)
    requires n <= |es| && s in After(START, es[..n]).maps.ownership.generations
    requires t in After(START, es).maps.ownership.generations && t !in After(START, es[..n]).maps.ownership.generations
    ensures var before := After(START, es[..n]).maps.ownership.generations;
      var after := After(START, es).maps.ownership.generations;
      s in after && after[s] == before[s] < after[t]
    ensures GenerationsDistinct(After(START, es).maps.ownership)
  {
    RunNumbers(START, es, n);
  }

  // ----- The grace -----

  /** How many entries of a snapshot carry the socket. */
  function Count(entries: seq<(string, Socket)>, s: Socket): nat {
    if entries == [] then 0
    else Count(entries[..|entries| - 1], s) + if entries[|entries| - 1].1 == s then 1 else 0
  }

  /** Whether the sweep drops the socket of its k-th entry. */
  predicate DropsAt(m: Maps, awaiting: set<Socket>, entries: seq<(string, Socket)>, k: nat)
    requires k < |entries|
  {
    entries[k].1 in SweepFirst(m, awaiting, entries[..k]).awaiting
  }

  /** How often a sweep drops the socket. */
  function Drops(m: Maps, awaiting: set<Socket>, entries: seq<(string, Socket)>, s: Socket): nat {
    if entries == [] then 0
    else
      var n := |entries| - 1;
      Drops(m, awaiting, entries[..n], s) + if entries[n].1 == s && DropsAt(m, awaiting, entries, n) then 1 else 0
  }

  /** What a sweep reports as dropped are the identities of the entries it dropped. */
  lemma {:induction false} ReportedIffDropped(m: Maps, awaiting: set<Socket>, entries: seq<(string, Socket)>,
                                              identity: string)
    ensures identity in SweepFirst(m, awaiting, entries).dropped <==>
      exists k :: 0 <= k < |entries| && entries[k].0 == identity && DropsAt(m, awaiting, entries, k)
  {
    if entries != [] {
      var n := |entries| - 1;
      ReportedIffDropped(m, awaiting, entries[..n], identity);
      forall k | 0 <= k < n ensures DropsAt(m, awaiting, entries[..n], k) <==> DropsAt(m, awaiting, entries, k) {
        assert entries[..n][..k] == entries[..k];
      }
    }
  }

  /** Entry after entry a socket is pinged and dropped by turns. */
  lemma {:induction false} DropsAreEverySecond(m: Maps, awaiting: set<Socket>, entries: seq<(string, Socket)>,
                                               s: Socket)
    ensures var waited := if s in awaiting then 1 else 0;
      && Drops(m, awaiting, entries, s) == (Count(entries, s) + waited) / 2
      && (s in SweepFirst(m, awaiting, entries).awaiting <==> (Count(entries, s) + waited) % 2 == 1)
  {
    if entries != [] { DropsAreEverySecond(m, awaiting, entries[..|entries| - 1], s); }
  }

  /** A connection loses its interval of grace, being pinged and dropped by one sweep, exactly if it is online twice. */
  lemma GraceIsLostIff(m: Maps, awaiting: set<Socket>, entries: seq<(string, Socket)>, s: Socket)
    requires s !in awaiting
    ensures Drops(m, awaiting, entries, s) > 0 <==> Count(entries, s) >= 2
  {
    DropsAreEverySecond(m, awaiting, entries, s);
  }

  lemma TwoConnects()
    ensures var h := Step(Step(START, Connect(0, "a", {})), Connect(0, "b", {}));
      h.maps.online == map["a" := 0, "b" := 0] && h.awaiting == {}
    ensures IsSnapshot(map["a" := 0, "b" := 0], [("a", 0), ("b", 0)])
  {
    var entries: seq<(string, Socket)> := [("a", 0), ("b", 0)];
    assert entries[0] == ("a", 0) && entries[1] == ("b", 0) && "a" != "b";
  }

  lemma SweepOfTwo(m: Maps, a: string, b: string, s: Socket)
    ensures var w := SweepFirst(m, {}, [(a, s), (b, s)]); w.pinged == [a] && w.dropped == [b]
  {
    var entries: seq<(string, Socket)> := [(a, s), (b, s)];
    assert entries[..1] == [(a, s)] && entries[..1][..0] == [];
    assert SweepFirst(m, {}, entries[..1]) == Sweep(m, {s}, [a], []);
  }

  /** And it happens: a socket that connects a second time is dropped by the first sweep it ever meets. */
  lemma SecondConnectLosesTheGrace()
    ensures var es, entries := [Connect(0, "a", {}), Connect(0, "b", {})], [("a", 0), ("b", 0)];
      && IsAnyRun(START, es + [Tick(entries)])
      && SweepFirst(After(START, es).maps, After(START, es).awaiting, entries).pinged == ["a"]
      && SweepFirst(After(START, es).maps, After(START, es).awaiting, entries).dropped == ["b"]
  {
    TwoConnects();
    OneMore([], Connect(0, "a", {}));
    OneMore([] + [Connect(0, "a", {})], Connect(0, "b", {}));
    var es := [Connect(0, "a", {}), Connect(0, "b", {})];
    assert [] + [Connect(0, "a", {})] + [Connect(0, "b", {})] == es;
    OneMore(es, Tick([("a", 0), ("b", 0)]));
    SweepOfTwo(After(START, es).maps, "a", "b", 0);
  }

  // ----- A drop under another identity -----

  lemma {:induction false} SweepLeavesItOnline(m: Maps, awaiting: set<Socket>, entries: seq<(string, Socket)>,
                                               identity: string, s: Socket)
    requires LeftOnline(m, identity, s)
    ensures LeftOnline(SweepFirst(m, awaiting, entries).maps, identity, s)
  {
    if entries != [] {
      var n := |entries| - 1;
      SweepLeavesItOnline(m, awaiting, entries[..n], identity, s);
      DropsLeaveItOnline(SweepFirst(m, awaiting, entries[..n]).maps, identity, s, entries[n].1, entries[n].0);
    }
  }

  /** The identity, or the socket, connects again. */
  predicate ConnectsAgain(e: Event, identity: string, s: Socket) { e.Connect? && (e.identity == identity || e.s == s) }

  lemma StepLeavesItOnline(h: Hub, e: Event, identity: string, s: Socket)
    requires LeftOnline(h.maps, identity, s) && !ConnectsAgain(e, identity, s)
    ensures LeftOnline(Step(h, e).maps, identity, s)
  {
    match e {
      case Connect(t, other, granted) => ConnectsLeaveItOnline(h.maps, identity, s, t, other, granted);
      case Frame(_) =>
      case Evict(t, other) => DropsLeaveItOnline(h.maps, identity, s, t, other);
      case Close(t) => if t in h.maps.identities { DropsLeaveItOnline(h.maps, identity, s, t, h.maps.identities[t]); }
      case Tick(entries) => SweepLeavesItOnline(h.maps, h.awaiting, entries, identity, s);
    }
  }

  lemma {:induction false} StaysOnline(h: Hub, es: seq<Event>, identity: string, s: Socket)
    requires LeftOnline(h.maps, identity, s)
    requires forall k :: 0 <= k < |es| ==> !ConnectsAgain(es[k], identity, s)
    ensures LeftOnline(After(h, es).maps, identity, s)
  {
    if es != [] {
      var n := |es| - 1;
      StaysOnline(h, es[..n], identity, s);
      StepLeavesItOnline(After(h, es[..n]), es[n], identity, s);
    }
  }

  /**
   * A connected socket evicted under another identity than its own is shown online under its own
   * through every close, drop and sweep, until that identity or that socket connects again.
   */
  lemma WrongEvictionSticks(h: Hub, identity: string, es: seq<Event>, s: Socket)
    requires Consistent(h.maps) && s in h.maps.identities && identity != h.maps.identities[s]
    requires forall k :: 0 <= k < |es| ==> !ConnectsAgain(es[k], h.maps.identities[s], s)
    ensures LeftOnline(After(Step(h, Evict(s, identity)), es).maps, h.maps.identities[s], s)
  {
    WrongDropLeavesOnline(h.maps, s, identity);
    StaysOnline(Step(h, Evict(s, identity)), es, h.maps.identities[s], s);
  }

  /** And it happens: connected as a, refused as b, closed, and online as a. */
  lemma WrongEvictionHappens()
    ensures var es := [Connect(0, "a", {}), Evict(0, "b"), Close(0)];
      IsAnyRun(START, es) && LeftOnline(After(START, es).maps, "a", 0) && !Consistent(After(START, es).maps)
  {
    var h := Step(START, Connect(0, "a", {}));
    OneMore([], Connect(0, "a", {}));
    OneMore([] + [Connect(0, "a", {})], Evict(0, "b"));
    OneMore([] + [Connect(0, "a", {})] + [Evict(0, "b")], Close(0));
    assert [] + [Connect(0, "a", {})] + [Evict(0, "b")] + [Close(0)] == [Connect(0, "a", {}), Evict(0, "b"), Close(0)];
    StepKeepsConsistent(START, Connect(0, "a", {}));
    assert "a" != "b" && h.maps.identities == map[0 := "a"];
    WrongDropLeavesOnline(h.maps, 0, "b");
    StepLeavesItOnline(Step(h, Evict(0, "b")), Close(0), "a", 0);
  }
}
