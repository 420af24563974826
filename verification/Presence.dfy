/**
 * packages/hub/src/connection-ownership.ts and packages/hub/src/presence.ts: who owns an identity,
 * and the maps that say who is connected. Sockets are known by number; a weak map is a map.
 */
module Presence {
  import opened Wrappers

  type Socket = nat

  // ----- Ownership -----

  datatype Ownership = Ownership(
    nextGeneration: nat, generations: map<Socket, nat>, identities: map<Socket, string>, owners: map<string, Socket>)

  datatype Claimed = Granted(generation: nat) | Conflict(incumbentGeneration: nat, contenderGeneration: nat)

  datatype Released = Released(identity: string, wasOwner: bool)

  function WithGeneration(o: Ownership, s: Socket): Ownership {
    if s in o.generations && o.generations[s] != 0 then o
    else o.(nextGeneration := o.nextGeneration + 1, generations := o.generations[s := o.nextGeneration + 1])
  }

  predicate Contended(o: Ownership, identity: string, s: Socket) {
    identity in o.owners && o.owners[identity] != s
  }

  function AfterClaim(o: Ownership, identity: string, s: Socket): Ownership {
    var seen := WithGeneration(o, s);
    if Contended(o, identity, s) then WithGeneration(seen, o.owners[identity])
    else seen.(owners := o.owners[identity := s], identities := o.identities[s := identity])
  }

  /** What `release` answers: an empty identity is falsy, hence no identity. */
  function ReleaseAnswer(o: Ownership, s: Socket): Option<Released> {
    if s !in o.identities || o.identities[s] == "" then None
    else Some(Released(o.identities[s], o.identities[s] in o.owners && o.owners[o.identities[s]] == s))
  }

  function AfterRelease(o: Ownership, s: Socket): Ownership {
    match ReleaseAnswer(o, s)
    case None => o
    case Some(r) =>
      o.(owners := if r.wasOwner then o.owners - {r.identity} else o.owners, identities := o.identities - {s})
  }

  class ConnectionOwnership {
    var nextGeneration: nat
    var generations: map<Socket, nat>
    var identities: map<Socket, string>
    var owners: map<string, Socket>

    ghost function State(): Ownership
      reads this
    {
      Ownership(nextGeneration, generations, identities, owners)
    }

    constructor ()
      ensures State() == Ownership(0, map[], map[], map[])
    {
      nextGeneration, generations, identities, owners := 0, map[], map[], map[];
    }

    method GenerationOf(s: Socket) returns (generation: nat)
      modifies this`nextGeneration, this`generations
      ensures State() == WithGeneration(old(State()), s)
      ensures s in generations && generation == generations[s]
    {
      if s in generations && generations[s] != 0 {
        return generations[s];
      }
      nextGeneration := nextGeneration + 1;
      generations := generations[s := nextGeneration];
      return nextGeneration;
    }

    method Claim(identity: string, s: Socket) returns (r: Claimed)
      modifies this
      ensures State() == AfterClaim(old(State()), identity, s)
      ensures r.Conflict? <==> Contended(old(State()), identity, s)
      ensures s in generations
      ensures r.Granted? ==> r.generation == generations[s]
      ensures r.Conflict? ==> old(owners)[identity] in generations
      ensures r.Conflict? ==> r == Conflict(generations[old(owners)[identity]], generations[s])
    {
      var contender := GenerationOf(s);
      if identity in owners && owners[identity] != s {
        var incumbent := GenerationOf(owners[identity]);
        return Conflict(incumbent, contender);
      }
      owners := owners[identity := s];
      identities := identities[s := identity];
      return Granted(contender);
    }

    method Release(s: Socket) returns (r: Option<Released>)
      modifies this`owners, this`identities
      ensures State() == AfterRelease(old(State()), s) && r == ReleaseAnswer(old(State()), s)
    {
      if s !in identities || identities[s] == "" {
        return None;
      }
      var identity := identities[s];
      var wasOwner := identity in owners && owners[identity] == s;
      if wasOwner {
        owners := owners - {identity};
      }
      identities := identities - {s};
      return Some(Released(identity, wasOwner));
    }
  }

  // ----- What ownership keeps -----

  /** Generations are given out once each, in increasing order. */
  ghost predicate GenerationsDistinct(o: Ownership) {
    && (forall s :: s in o.generations ==> 1 <= o.generations[s] <= o.nextGeneration)
    && (forall s, t :: s in o.generations && t in o.generations && s != t ==> o.generations[s] != o.generations[t])
  }

  ghost predicate MutualInverse(o: Ownership) {
    && (forall i :: i in o.owners ==> o.owners[i] in o.identities && o.identities[o.owners[i]] == i)
    && (forall s :: s in o.identities ==> o.identities[s] in o.owners && o.owners[o.identities[s]] == s)
  }

  lemma GenerationsGrow(o: Ownership, s: Socket)
    requires GenerationsDistinct(o)
    ensures var next := WithGeneration(o, s);
      && GenerationsDistinct(next) && s in next.generations
      && (forall t :: t in o.generations ==> t in next.generations && next.generations[t] == o.generations[t])
      && (s !in o.generations ==> forall t :: t in o.generations ==> o.generations[t] < next.generations[s])
      && next.owners == o.owners && next.identities == o.identities
  {
  }

  /** A granted claim keeps the two maps inverse exactly when the socket holds no other identity. */
  lemma ClaimKeepsInverseIff(o: Ownership, identity: string, s: Socket)
    requires MutualInverse(o) && !Contended(o, identity, s)
    ensures MutualInverse(AfterClaim(o, identity, s)) <==> s !in o.identities || o.identities[s] == identity
  {
    var after := AfterClaim(o, identity, s);
    if s in o.identities && o.identities[s] != identity {
      assert o.identities[s] in after.owners;
    }
  }

  /** The release of an identity that is not empty undoes its claim; an empty one is never released. */
  lemma ReleaseUndoesClaimIff(o: Ownership, identity: string, s: Socket)
    requires MutualInverse(o) && s !in o.identities && identity !in o.owners
    ensures var back := AfterRelease(AfterClaim(o, identity, s), s);
      back.owners == o.owners && back.identities == o.identities <==> identity != ""
  {
  }

  /** A socket that no longer owns its identity gives up its own entry alone: the newer owner stays. */
  lemma ReleaseSparesNewerOwner(o: Ownership, s: Socket)
    requires s in o.identities && o.identities[s] != ""
    requires o.identities[s] in o.owners && o.owners[o.identities[s]] != s
    ensures ReleaseAnswer(o, s) == Some(Released(o.identities[s], false))
    ensures AfterRelease(o, s) == o.(identities := o.identities - {s})
  {
  }

  // ----- The presence maps -----

  datatype Maps = Maps(
    ownership: Ownership, online: map<string, Socket>, identities: map<Socket, string>,
    proxies: map<string, Socket>, proxied: map<Socket, set<string>>)

  /** The proxy half of a close: only routes that still lead to this socket are withdrawn. */
  function WithdrawProxies(m: Maps, s: Socket): Maps {
    if s in m.proxied
    then m.(proxies := map p | p in m.proxies && !(p in m.proxied[s] && m.proxies[p] == s) :: m.proxies[p],
            proxied := m.proxied - {s})
    else m
  }

  /** `dropConnection`. */
  function AfterDrop(m: Maps, s: Socket, identity: string): Maps {
    var answer := ReleaseAnswer(m.ownership, s);
    var released := m.(ownership := AfterRelease(m.ownership, s));
    var offline :=
      if answer.Some? && answer.value.wasOwner && identity in m.online && m.online[identity] == s
      then released.(online := m.online - {identity}) else released;
    var withdrawn := WithdrawProxies(offline, s);
    withdrawn.(identities := withdrawn.identities - {s})
  }

  /** The close handler of packages/hub/src/main.ts. */
  function AfterClose(m: Maps, s: Socket): Maps {
    if s in m.identities && m.identities[s] != "" then AfterDrop(m, s, m.identities[s]) else m
  }

  /** `performConnect` for an identity that is registered, `granted` being the proxy claims it may make. */
  function AfterConnect(m: Maps, s: Socket, identity: string, granted: set<string>): Maps {
    var claimed := m.(ownership := AfterClaim(m.ownership, identity, s));
    if Contended(m.ownership, identity, s) then claimed
    else
      var online := claimed.(online := m.online[identity := s], identities := m.identities[s := identity]);
      if granted == {} then online
      else online.(
        proxies := map p | p in m.proxies.Keys + granted :: if p in granted then s else m.proxies[p],
        proxied := m.proxied[s := (if s in m.proxied then m.proxied[s] else {}) + granted])
  }

  class PresenceMaps {
    const ownership: ConnectionOwnership
    var online: map<string, Socket>
    var identities: map<Socket, string>
    var proxies: map<string, Socket>
    var proxied: map<Socket, set<string>>

    ghost function State(): Maps
      reads this, ownership
    {
      Maps(ownership.State(), online, identities, proxies, proxied)
    }

    constructor ()
      ensures State() == Maps(Ownership(0, map[], map[], map[]), map[], map[], map[], map[])
      ensures fresh(ownership)
    {
      ownership := new ConnectionOwnership();
      online, identities, proxies, proxied := map[], map[], map[], map[];
    }

    method DropConnection(s: Socket, identity: string)
      modifies this, ownership
      ensures State() == AfterDrop(old(State()), s, identity)
    {
      var released := ownership.Release(s);
      if released.Some? && released.value.wasOwner && identity in online && online[identity] == s {
        online := online - {identity};
      }
      Withdraw(s);
      identities := identities - {s};
    }

    /** `for (const pid of proxied) if (proxyMap.get(pid) === ws) proxyMap.delete(pid)`. */
    method Withdraw(s: Socket)
      modifies this`proxies, this`proxied
      ensures State() == WithdrawProxies(old(State()), s)
    {
      if s in proxied {
        var mine := proxied[s];
        var left := mine;
        ghost var routes := proxies;
        while left != {}
          invariant left <= mine && proxied == old(proxied)
          invariant proxies == map p | p in routes && !(p in mine - left && routes[p] == s) :: routes[p]
          decreases left
        {
          var pid :| pid in left;
          left := left - {pid};
          if pid in proxies && proxies[pid] == s {
            proxies := proxies - {pid};
          }
        }
        proxied := proxied - {s};
      }
    }

    method Close(s: Socket)
      modifies this, ownership
      ensures State() == AfterClose(old(State()), s)
    {
      if s in identities && identities[s] != "" {
        DropConnection(s, identities[s]);
      }
    }

    method Connect(s: Socket, identity: string, granted: set<string>) returns (r: Claimed)
      modifies this, ownership
      ensures State() == AfterConnect(old(State()), s, identity, granted)
      ensures r.Conflict? <==> Contended(old(State()).ownership, identity, s)
    {
      r := ownership.Claim(identity, s);
      if r.Conflict? {
        return;
      }
      online := online[identity := s];
      identities := identities[s := identity];
      if granted != {} {
        proxies := map p | p in proxies.Keys + granted :: if p in granted then s else proxies[p];
        proxied := proxied[s := (if s in proxied then proxied[s] else {}) + granted];
      }
    }
  }

  // ----- What the maps keep -----

  /** The five maps tell one story. */
  ghost predicate Consistent(m: Maps) {
    && MutualInverse(m.ownership) && "" !in m.ownership.owners
    && m.online == m.ownership.owners && m.identities == m.ownership.identities
    && ProxiesSound(m)
  }

  ghost predicate ProxiesSound(m: Maps) {
    && (forall p :: p in m.proxies ==> m.proxies[p] in m.proxied && p in m.proxied[m.proxies[p]])
    && (forall s :: s in m.proxied ==> s in m.identities)
  }

  /** A socket is in none of the maps. */
  ghost predicate Gone(m: Maps, s: Socket) {
    && s !in m.identities && s !in m.proxied && s !in m.online.Values && s !in m.proxies.Values
    && s !in m.ownership.identities && s !in m.ownership.owners.Values
  }

  /** A map to sockets, or from sockets, without some of them. */
  function LeadingElsewhere(m: map<string, Socket>, gone: set<Socket>): map<string, Socket> {
    map i | i in m && m[i] !in gone :: m[i]
  }

  function OfOthers<V>(m: map<Socket, V>, gone: set<Socket>): map<Socket, V> { map s | s in m && s !in gone :: m[s] }

  /** The maps without some sockets, every other socket's entries as they are. */
  function Without(m: Maps, gone: set<Socket>): Maps {
    Maps(
      m.ownership.(identities := OfOthers(m.ownership.identities, gone),
                   owners := LeadingElsewhere(m.ownership.owners, gone)),
      LeadingElsewhere(m.online, gone), OfOthers(m.identities, gone), LeadingElsewhere(m.proxies, gone),
      OfOthers(m.proxied, gone))
  }

  // ----- What a connect does, entry by entry -----

  /** Refused, because another socket owns the identity, it changes neither who is who nor any route. */
  lemma RefusedConnectIs(m: Maps, s: Socket, identity: string, granted: set<string>)
    requires identity in m.ownership.owners && m.ownership.owners[identity] != s
    ensures var v := AfterConnect(m, s, identity, granted);
      && v.online == m.online && v.identities == m.identities && v.proxies == m.proxies && v.proxied == m.proxied
      && v.ownership.owners == m.ownership.owners && v.ownership.identities == m.ownership.identities
  {
  }

  /** Admitted, the socket and its identity lead to each other everywhere, and every other entry is as it was. */
  lemma AdmittedConnectIs(m: Maps, s: Socket, identity: string, granted: set<string>, i: string, t: Socket)
    requires identity in m.ownership.owners ==> m.ownership.owners[identity] == s
    ensures var v := AfterConnect(m, s, identity, granted);
      && identity in v.online && v.online[identity] == s && s in v.identities && v.identities[s] == identity
      && identity in v.ownership.owners && v.ownership.owners[identity] == s
      && s in v.ownership.identities && v.ownership.identities[s] == identity
      && (i != identity ==> SameEntry(m.online, v.online, i) && SameEntry(m.ownership.owners, v.ownership.owners, i))
      && (t != s ==> SameEntry(m.identities, v.identities, t)
                     && SameEntry(m.ownership.identities, v.ownership.identities, t))
  {
  }

  /** Its granted proxies lead to it from now on, and it is known to hold them besides those it held before. */
  lemma GrantedProxiesAre(m: Maps, s: Socket, identity: string, granted: set<string>, p: string, t: Socket)
    requires identity in m.ownership.owners ==> m.ownership.owners[identity] == s
    ensures var v := AfterConnect(m, s, identity, granted);
      && (p in granted ==> p in v.proxies && v.proxies[p] == s && s in v.proxied && p in v.proxied[s])
      && (p !in granted ==> SameEntry(m.proxies, v.proxies, p))
      && (s in v.proxied ==> forall q :: q in v.proxied[s] <==> q in granted || (s in m.proxied && q in m.proxied[s]))
      && (s in m.proxied ==> s in v.proxied) && (t != s ==> SameEntry(m.proxied, v.proxied, t))
  {
  }

  ghost predicate SameEntry<K, V>(m: map<K, V>, v: map<K, V>, k: K) {
    (k in v <==> k in m) && (k in m ==> v[k] == m[k])
  }

  lemma ConnectKeepsConsistent(m: Maps, s: Socket, identity: string, granted: set<string>)
    requires Consistent(m) && identity != ""
    requires s in m.identities ==> m.identities[s] == identity
    ensures Consistent(AfterConnect(m, s, identity, granted))
  {
    if Contended(m.ownership, identity, s) {
      RefusedConnectIs(m, s, identity, granted);
    } else {
      ClaimKeepsInverseIff(m.ownership, identity, s);
      AdmittedConnectMaps(m, s, identity, granted);
      ConnectKeepsProxies(m, s, identity, granted);
    }
  }

  lemma AdmittedConnectMaps(m: Maps, s: Socket, identity: string, granted: set<string>)
    requires !Contended(m.ownership, identity, s)
    ensures var v := AfterConnect(m, s, identity, granted);
      && v.ownership == AfterClaim(m.ownership, identity, s)
      && v.ownership.owners == m.ownership.owners[identity := s]
      && v.ownership.identities == m.ownership.identities[s := identity]
      && v.online == m.online[identity := s] && v.identities == m.identities[s := identity]
  {
  }

  lemma ConnectKeepsProxies(m: Maps, s: Socket, identity: string, granted: set<string>)
    requires ProxiesSound(m) && !Contended(m.ownership, identity, s)
    ensures ProxiesSound(AfterConnect(m, s, identity, granted))
  {
    var after := AfterConnect(m, s, identity, granted);
    if granted != {} {
      forall p | p in after.proxies ensures after.proxies[p] in after.proxied && p in after.proxied[after.proxies[p]] {
        if p !in granted { assert p in m.proxies; }
      }
    }
  }

  lemma ReleaseIsExact(o: Ownership, s: Socket)
    requires MutualInverse(o) && "" !in o.owners && s in o.identities
    ensures ReleaseAnswer(o, s) == Some(Released(o.identities[s], true))
    ensures AfterRelease(o, s).owners == o.owners - {o.identities[s]} == LeadingElsewhere(o.owners, {s})
    ensures AfterRelease(o, s).identities == OfOthers(o.identities, {s})
  {
    assert o.identities[s] in o.owners && o.owners[o.identities[s]] == s;
    assert o.owners - {o.identities[s]} == LeadingElsewhere(o.owners, {s});
    assert o.identities - {s} == OfOthers(o.identities, {s});
  }

  lemma WithdrawIsExact(m: Maps, s: Socket)
    requires ProxiesSound(m)
    ensures WithdrawProxies(m, s) == m.(proxies := LeadingElsewhere(m.proxies, {s}),
                                        proxied := OfOthers(m.proxied, {s}))
  {
    var after := WithdrawProxies(m, s);
    assert forall p :: p in m.proxies && m.proxies[p] == s ==> s in m.proxied && p in m.proxied[s];
    assert after.proxies == LeadingElsewhere(m.proxies, {s});
    assert after.proxied == OfOthers(m.proxied, {s});
  }

  /** Dropping a connected socket under its own identity removes it from every map and touches nothing else. */
  lemma DropIsExact(m: Maps, s: Socket, identity: string)
    requires Consistent(m) && s in m.identities && m.identities[s] == identity
    ensures AfterDrop(m, s, identity) == Without(m, {s})
    ensures Gone(AfterDrop(m, s, identity), s)
  {
    ReleaseIsExact(m.ownership, s);
    var offline := m.(ownership := AfterRelease(m.ownership, s), online := m.online - {identity});
    WithdrawIsExact(offline, s);
    assert m.identities - {s} == OfOthers(m.identities, {s});
    assert AfterDrop(m, s, identity) == Without(m, {s});
    WithoutIsGone(m, {s}, s);
  }

  lemma WithoutIsGone(m: Maps, gone: set<Socket>, s: Socket)
    requires s in gone || Gone(m, s)
    ensures Gone(Without(m, gone), s)
  {
  }

  lemma WithoutKeepsConsistent(m: Maps, gone: set<Socket>)
    requires Consistent(m)
    ensures Consistent(Without(m, gone))
  {
  }

  /** The close handler that follows a drop, or runs for a socket that never connected, changes nothing. */
  lemma CloseAfterDropChangesNothing(m: Maps, s: Socket)
    requires Consistent(m)
    ensures var dropped := AfterClose(m, s);
      && Consistent(dropped) && Gone(dropped, s) && AfterClose(dropped, s) == dropped
  {
    if s in m.identities {
      assert m.identities[s] in m.ownership.owners;
      DropIsExact(m, s, m.identities[s]);
      WithoutKeepsConsistent(m, {s});
    }
  }

  /** `dropConnection` is given an identity: it clears the socket exactly when that is the one the socket owns. */
  lemma DropClearsIffOwnIdentity(m: Maps, s: Socket, identity: string)
    requires Consistent(m)
    ensures Gone(AfterDrop(m, s, identity), s) <==> (s in m.identities ==> m.identities[s] == identity)
  {
    if s in m.identities {
      var own := m.identities[s];
      assert own in m.online && m.online[own] == s;
      if own == identity {
        DropIsExact(m, s, identity);
      } else {
        assert own in AfterDrop(m, s, identity).online;
      }
    }
  }

  /** Without an identity of its own a socket is dropped without effect. */
  lemma DropOfStrangerChangesNothing(m: Maps, s: Socket, identity: string)
    requires Consistent(m) && s !in m.identities
    ensures AfterDrop(m, s, identity) == m
  {
    assert s !in m.proxied && m.identities - {s} == m.identities;
  }

  /** And it keeps the maps telling one story under the same condition. */
  lemma DropKeepsConsistentIff(m: Maps, s: Socket, identity: string)
    requires Consistent(m)
    ensures Consistent(AfterDrop(m, s, identity)) <==> (s in m.identities ==> m.identities[s] == identity)
  {
    if s !in m.identities {
      DropOfStrangerChangesNothing(m, s, identity);
    } else if m.identities[s] == identity {
      DropIsExact(m, s, identity);
      WithoutKeepsConsistent(m, {s});
    } else {
      ReleaseIsExact(m.ownership, s);
      var own, after := m.identities[s], AfterDrop(m, s, identity);
      assert own in m.online && own in after.online && own !in after.ownership.owners;
    }
  }

  /** Shown online, though the socket it is shown on owns nothing any more. */
  predicate LeftOnline(m: Maps, identity: string, s: Socket) {
    identity in m.online && m.online[identity] == s && s !in m.ownership.identities
  }

  /** Dropped under another identity than its own, a socket stays online under its own. */
  lemma WrongDropLeavesOnline(m: Maps, s: Socket, identity: string)
    requires Consistent(m) && s in m.identities
    ensures LeftOnline(AfterDrop(m, s, identity), m.identities[s], s) <==> identity != m.identities[s]
  {
    ReleaseIsExact(m.ownership, s);
  }

  /** No later drop, of whatever socket under whatever identity, takes it offline. */
  lemma DropsLeaveItOnline(m: Maps, identity: string, s: Socket, t: Socket, other: string)
    requires LeftOnline(m, identity, s)
    ensures LeftOnline(AfterDrop(m, t, other), identity, s)
  {
  }

  /** Nor does another identity's connection on another socket. */
  lemma ConnectsLeaveItOnline(m: Maps, identity: string, s: Socket, t: Socket, other: string, granted: set<string>)
    requires LeftOnline(m, identity, s) && t != s && other != identity
    ensures LeftOnline(AfterConnect(m, t, other, granted), identity, s)
  {
    var o := AfterClaim(m.ownership, other, t);
    assert s !in o.identities;
    if !Contended(m.ownership, other, t) { assert m.online[other := t][identity] == s; }
  }
}
