/**
 * Over runs of the hub: on which socket an identity is online, and to which socket the messages of
 * a proxied one go, told from the events alone (packages/hub/src/rpc/connect.ts, presence.ts, heartbeat.ts).
 */
module Whereabouts {
  import opened Presence
  import opened Heartbeat
  import opened Histories

  /** The event is an admitted connect of the socket that grants it the proxy. */
  ghost predicate Grants(h: Hub, e: Event, p: string, s: Socket) {
    && e.Connect? && e.s == s && p in e.granted
    && (e.identity in h.maps.ownership.owners ==> h.maps.ownership.owners[e.identity] == s)
  }

  ghost predicate LeadsTo(h: Hub, p: string, s: Socket) { p in h.maps.proxies && h.maps.proxies[p] == s }

  /** The hub still knows the socket. */
  ghost predicate IsKnown(h: Hub, s: Socket) { s in h.maps.identities }

  // ----- One event -----

  lemma DropRoutes(m: Maps, t: Socket, identity: string, p: string, s: Socket)
    requires ProxiesSound(m)
    ensures var v := AfterDrop(m, t, identity);
      && ProxiesSound(v) && (s in v.identities <==> s in m.identities && s != t)
      && (p in v.proxies && v.proxies[p] == s <==> p in m.proxies && m.proxies[p] == s && s in v.identities)
  {
    var released := AfterRelease(m.ownership, t);
    var offline := m.(ownership := released, online := AfterDrop(m, t, identity).online);
    WithdrawIsExact(offline, t);
    assert ProxiesSound(offline);
  }

  lemma {:induction false} SweepRoutes(m: Maps, awaiting: set<Socket>, entries: seq<(string, Socket)>, p: string,
                                       s: Socket)
    requires ProxiesSound(m)
    ensures var v := SweepFirst(m, awaiting, entries).maps;
      && ProxiesSound(v) && (s in v.identities ==> s in m.identities)
      && (p in v.proxies && v.proxies[p] == s <==> p in m.proxies && m.proxies[p] == s && s in v.identities)
  {
    if entries != [] {
      var n := |entries| - 1;
      SweepRoutes(m, awaiting, entries[..n], p, s);
      var w := SweepFirst(m, awaiting, entries[..n]);
      if entries[n].1 in w.awaiting { DropRoutes(w.maps, entries[n].1, entries[n].0, p, s); }
    }
  }

  lemma ConnectRoutes(h: Hub, e: Event, p: string, s: Socket)
    requires ProxiesSound(h.maps) && e.Connect?
    ensures ProxiesSound(Step(h, e).maps)
    ensures LeadsTo(Step(h, e), p, s) <==>
      Grants(h, e, p, s)
      || (LeadsTo(h, p, s) && IsKnown(Step(h, e), s) && forall t :: t != s ==> !Grants(h, e, p, t))
  {
    var m := h.maps;
    if e.identity in m.ownership.owners && m.ownership.owners[e.identity] != e.s {
      RefusedConnectIs(m, e.s, e.identity, e.granted);
      assert ProxiesSound(Step(h, e).maps);
    } else {
      AdmittedConnectIs(m, e.s, e.identity, e.granted, e.identity, s);
      GrantedProxiesAre(m, e.s, e.identity, e.granted, p, s);
      ConnectKeepsProxies(m, e.s, e.identity, e.granted);
      if p in e.granted { assert Grants(h, e, p, e.s); }
    }
  }

  /** A route is opened by a grant, and lasts while its socket is known and nobody else is granted it. */
  lemma StepRoutes(h: Hub, e: Event, p: string, s: Socket)
    requires ProxiesSound(h.maps)
    ensures ProxiesSound(Step(h, e).maps)
    ensures LeadsTo(Step(h, e), p, s) <==>
      Grants(h, e, p, s)
      || (LeadsTo(h, p, s) && IsKnown(Step(h, e), s) && forall t :: t != s ==> !Grants(h, e, p, t))
  {
    match e {
      case Connect(_, _, _) => ConnectRoutes(h, e, p, s);
      case Frame(_) =>
      case Evict(t, identity) => DropRoutes(h.maps, t, identity, p, s);
      case Close(t) =>
        if t in h.maps.identities && h.maps.identities[t] != "" { DropRoutes(h.maps, t, h.maps.identities[t], p, s); }
      case Tick(entries) => SweepRoutes(h.maps, h.awaiting, entries, p, s);
    }
  }

  // ----- Runs -----

  ghost predicate LeadsAt(es: seq<Event>, n: nat, p: string, s: Socket) {
    n <= |es| && LeadsTo(After(START, es[..n]), p, s)
  }

  ghost predicate GrantedAt(es: seq<Event>, n: nat, p: string, s: Socket) {
    n < |es| && Grants(After(START, es[..n]), es[n], p, s)
  }

  /** The n-th event leaves the socket known and grants the proxy to nobody else. */
  ghost predicate GoesOn(es: seq<Event>, n: nat, p: string, s: Socket) {
    && n < |es| && IsKnown(Step(After(START, es[..n]), es[n]), s)
    && forall t :: t != s ==> !Grants(After(START, es[..n]), es[n], p, t)
  }

  lemma {:induction false} RoutesAreSound(es: seq<Event>)
    ensures ProxiesSound(After(START, es).maps)
  {
    if es != [] {
      RoutesAreSound(es[..|es| - 1]);
      StepRoutes(After(START, es[..|es| - 1]), es[|es| - 1], "", 0);
    }
  }

  lemma RouteStep(es: seq<Event>, n: nat, p: string, s: Socket)
    requires n < |es|
    ensures LeadsAt(es, n + 1, p, s) <==> GrantedAt(es, n, p, s) || (LeadsAt(es, n, p, s) && GoesOn(es, n, p, s))
  {
    assert es[..n + 1][..n] == es[..n];
    RoutesAreSound(es[..n]);
    StepRoutes(After(START, es[..n]), es[n], p, s);
  }

  /**
   * Over every run the messages of a proxied identity go to a socket exactly when it was granted the
   * proxy by an admitted connect, has been known to the hub ever since, and no other socket has been
   * granted it in the meantime.
   */
  lemma RouteIff(es: seq<Event>, p: string, s: Socket)
    ensures LeadsTo(After(START, es), p, s) <==>
            Since((n: nat) => GrantedAt(es, n, p, s), (n: nat) => GoesOn(es, n, p, s), |es|)
  {
    var holds := (n: nat) => LeadsAt(es, n, p, s);
    var sets, keeps := (n: nat) => GrantedAt(es, n, p, s), (n: nat) => GoesOn(es, n, p, s);
    forall n: nat | n < |es| ensures IsStep(holds, sets, keeps, n) { RouteStep(es, n, p, s); }
    HoldsIffSince(holds, sets, keeps, |es|);
    assert es[..|es|] == es && holds(|es|) == LeadsAt(es, |es|, p, s);
  }

  // ----- Who is online -----

  ghost predicate OnlineAt(es: seq<Event>, n: nat, i: string, s: Socket) {
    n <= |es| && i in After(START, es[..n]).maps.online && After(START, es[..n]).maps.online[i] == s
  }

  /** The n-th event connects the socket as the identity, which no other socket owns. */
  ghost predicate JoinsAt(es: seq<Event>, n: nat, i: string, s: Socket) {
    n < |es| && Joins(After(START, es[..n]), es[n], i, s)
  }

  ghost predicate Joins(h: Hub, e: Event, i: string, s: Socket) {
    && e.Connect? && e.s == s && e.identity == i
    && (i in h.maps.ownership.owners ==> h.maps.ownership.owners[i] == s)
  }

  /** The socket closes, is evicted, or is swept while it has not answered an earlier ping. */
  ghost predicate Leaves(h: Hub, e: Event, s: Socket) {
    ((e.Close? || e.Evict?) && e.s == s) || (e.Tick? && s in h.awaiting)
  }

  ghost predicate StaysAt(es: seq<Event>, n: nat, s: Socket) {
    n < |es| && !Leaves(After(START, es[..n]), es[n], s)
  }

  ghost predicate IsOn(m: Maps, i: string, s: Socket) { i in m.online && m.online[i] == s }

  lemma ConnectPresence(h: Hub, e: Event, i: string, s: Socket)
    requires Consistent(h.maps) && e.Connect? && Enabled(h, e)
    ensures IsOn(Step(h, e).maps, i, s) <==> Joins(h, e, i, s) || IsOn(h.maps, i, s)
  {
    var m := h.maps;
    if e.identity in m.ownership.owners && m.ownership.owners[e.identity] != e.s {
      RefusedConnectIs(m, e.s, e.identity, e.granted);
    } else {
      AdmittedConnectIs(m, e.s, e.identity, e.granted, i, s);
    }
  }

  lemma DropPresence(m: Maps, t: Socket, identity: string, i: string, s: Socket)
    requires Consistent(m) && (t in m.identities ==> m.identities[t] == identity)
    ensures IsOn(AfterDrop(m, t, identity), i, s) <==> IsOn(m, i, s) && s != t
  {
    if t in m.identities {
      DropIsExact(m, t, identity);
    } else {
      DropOfStrangerChangesNothing(m, t, identity);
    }
  }

  lemma SweepPresence(h: Hub, entries: seq<(string, Socket)>, i: string, s: Socket)
    requires Consistent(h.maps) && IsSnapshot(h.maps.online, entries)
    ensures IsOn(Step(h, Tick(entries)).maps, i, s) <==> IsOn(h.maps, i, s) && s !in h.awaiting
  {
    SweepIsExact(h.maps, h.awaiting, entries, entries);
    if IsOn(h.maps, i, s) {
      var k :| 0 <= k < |entries| && entries[k] == (i, s);
      assert s in Silent(h.awaiting, entries) <==> s in h.awaiting;
    }
  }

  lemma StepPresence(h: Hub, e: Event, i: string, s: Socket)
    requires Consistent(h.maps) && Enabled(h, e)
    ensures IsOn(Step(h, e).maps, i, s) <==> Joins(h, e, i, s) || (IsOn(h.maps, i, s) && !Leaves(h, e, s))
  {
    match e {
      case Connect(_, _, _) => ConnectPresence(h, e, i, s);
      case Frame(_) =>
      case Evict(t, identity) => DropPresence(h.maps, t, identity, i, s);
      case Close(t) =>
        if t in h.maps.identities {
          assert h.maps.identities[t] in h.maps.ownership.owners;
          DropPresence(h.maps, t, h.maps.identities[t], i, s);
        }
      case Tick(entries) => SweepPresence(h, entries, i, s);
    }
  }

  lemma {:induction false} PrefixIsRun(es: seq<Event>, n: nat)
    requires IsRun(START, es) && n <= |es|
    ensures IsRun(START, es[..n]) && (n < |es| ==> Enabled(After(START, es[..n]), es[n]))
    decreases |es|
  {
    if n == |es| {
      assert es[..n] == es;
    } else {
      var before := es[..|es| - 1];
      PrefixIsRun(before, n);
      assert before[..n] == es[..n];
      if n < |before| { assert before[n] == es[n]; }
    }
  }

  lemma PresenceStep(es: seq<Event>, n: nat, i: string, s: Socket)
    requires IsRun(START, es) && n < |es|
    ensures OnlineAt(es, n + 1, i, s) <==> JoinsAt(es, n, i, s) || (OnlineAt(es, n, i, s) && StaysAt(es, n, s))
  {
    assert es[..n + 1][..n] == es[..n];
    PrefixIsRun(es, n);
    RunKeepsConsistent(es[..n]);
    StepPresence(After(START, es[..n]), es[n], i, s);
  }

  /**
   * Over every run in which each socket speaks as one identity, an identity is online on a socket exactly
   * when the socket connected as it while no other owned it, and has neither closed nor been evicted nor
   * been swept with a ping unanswered since.
   */
  lemma OnlineIff(es: seq<Event>, i: string, s: Socket)
    requires IsRun(START, es)
    ensures IsOn(After(START, es).maps, i, s) <==>
            Since((n: nat) => JoinsAt(es, n, i, s), (n: nat) => StaysAt(es, n, s), |es|)
  {
    var holds := (n: nat) => OnlineAt(es, n, i, s);
    var sets, keeps := (n: nat) => JoinsAt(es, n, i, s), (n: nat) => StaysAt(es, n, s);
    forall n: nat | n < |es| ensures IsStep(holds, sets, keeps, n) { PresenceStep(es, n, i, s); }
    HoldsIffSince(holds, sets, keeps, |es|);
    assert es[..|es|] == es && holds(|es|) == OnlineAt(es, |es|, i, s);
  }
}
