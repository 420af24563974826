/**
 * packages/self-reminder/src/lifecycle.ts: one socket, one reconnect timer and the requests in
 * flight. What the environment decides (whether a socket could be made, whether it is open,
 * whether a send throws) comes in with each event; promises are numbered as they are handed out.
 */
module Lifecycle {
  import opened Wrappers
  import opened Texts
  import Counting

  datatype Conn = Conn(generation: nat, ws: nat)

  datatype Pending = Pending(generation: nat, promise: nat)

  datatype Outcome = Resolved | Refused | TimedOut | SendFailed | GenerationRejected | NotOpen

  /** A frame from the hub. */
  datatype Incoming = NotJson | NoId | Answer(id: string, isError: bool)

  datatype Config = Config(baseMs: nat, maxMs: nat)

  /** The fields of the object, then what its history comes to. */
  datatype State = State(
    generation: nat, current: Option<Conn>, timer: Option<nat>, attempt: nat, ready: bool, stopped: bool,
    sequence: nat, pending: map<string, Pending>, registering: map<nat, Conn>,
    started: bool,                          // whether `start` has been called
    handed: nat,                            // promises handed out
    outcomes: multiset<(nat, Outcome)>,     // every settlement of a promise
    connects: map<nat, nat>,                // the generation each `mesh.connect` was sent for
    issued: seq<string>,                    // every request id used
    delays: seq<nat>)                       // reconnect delays since the last registration

  const START := State(0, None, None, 0, false, false, 0, map[], map[], false, 0, multiset{}, map[], [], [])

  // ----- The steps -----

  function Owns(s: State, c: Conn): bool { s.current == Some(c) }

  function Pow2(n: nat): nat { if n == 0 then 1 else 2 * Pow2(n - 1) }

  function Min(a: nat, b: nat): nat { if a < b then a else b }

  function Delay(k: Config, attempt: nat): nat { Min(k.maxMs, k.baseMs * Pow2(Min(attempt, 10))) }

  /** `${generation}-${sequence}`. */
  function RequestId(generation: nat, sequence: nat): string { Decimal(generation) + ("-" + Decimal(sequence)) }

  function ScheduleReconnect(k: Config, s: State): State {
    if s.stopped || s.timer.Some? then s
    else s.(timer := Some(Delay(k, s.attempt)), attempt := s.attempt + 1, delays := s.delays + [Delay(k, s.attempt)])
  }

  /** `created` is the socket the options made, or None when making it threw. */
  function Connect(k: Config, s: State, created: Option<nat>): State {
    if s.stopped || s.current.Some? || s.timer.Some? then s
    else
      var next := s.(generation := s.generation + 1);
      match created
      case None => ScheduleReconnect(k, next)
      case Some(ws) => next.(current := Some(Conn(next.generation, ws)), ready := false)
  }

  function Start(k: Config, s: State, created: Option<nat>): State {
    Connect(k, s.(stopped := false, started := true), created)
  }

  /** Everything in flight for a generation is rejected. */
  function RejectGeneration(s: State, generation: nat): State {
    s.(pending := map id | id in s.pending && s.pending[id].generation != generation :: s.pending[id],
       outcomes := s.outcomes + multiset(set id | id in s.pending && s.pending[id].generation == generation ::
                                           (s.pending[id].promise, GenerationRejected)))
  }

  function Stop(s: State): State {
    var next := s.(stopped := true, timer := None, current := None, ready := false);
    if s.current.Some? then RejectGeneration(next, s.current.value.generation) else next
  }

  function Lose(k: Config, s: State, c: Conn): State {
    ScheduleReconnect(k, RejectGeneration(s.(current := None, ready := false), c.generation))
  }

  function Settle(s: State, promise: nat, outcome: Outcome): State {
    s.(outcomes := s.outcomes + multiset{(promise, outcome)})
  }

  /** `requestOn`: the promise handed out is number `s.handed`. */
  function RequestOn(s: State, c: Conn, open: bool, sendThrows: bool): State {
    var handed := s.(handed := s.handed + 1);
    if !Owns(s, c) || !open then Settle(handed, s.handed, NotOpen)
    else
      var id := RequestId(c.generation, s.sequence + 1);
      var sent := handed.(sequence := s.sequence + 1, issued := s.issued + [id]);
      if sendThrows then Settle(sent, s.handed, SendFailed)
      else sent.(pending := s.pending[id := Pending(c.generation, s.handed)])
  }

  function Request(s: State, open: bool, sendThrows: bool): State {
    if !s.ready || s.current.None? then Settle(s.(handed := s.handed + 1), s.handed, NotOpen)
    else RequestOn(s, s.current.value, open, sendThrows)
  }

  /** `open`: the registration is sent, and its continuation waits for the promise. */
  function Opened(s: State, c: Conn, open: bool, sendThrows: bool): State {
    if !Owns(s, c) then s
    else
      var sent := RequestOn(s, c, open, sendThrows);
      sent.(registering := s.registering[s.handed := c], connects := s.connects[s.handed := c.generation])
  }

  /** What `register` does once its promise has settled. */
  function Continue(k: Config, s: State, promise: nat, resolved: bool): State {
    if promise !in s.registering then s
    else
      var c := s.registering[promise];
      var next := s.(registering := s.registering - {promise});
      if !Owns(s, c) then next
      else if resolved then next.(ready := true, attempt := 0, delays := [])
      else Lose(k, next, c)
  }

  function Answered(s: State, c: Conn, frame: Incoming): State {
    if !Owns(s, c) || !frame.Answer? || frame.id !in s.pending || s.pending[frame.id].generation != c.generation then s
    else
      Settle(s.(pending := s.pending - {frame.id}), s.pending[frame.id].promise, if frame.isError
             then Refused else Resolved)
  }

  function Expired(s: State, id: string): State {
    if id in s.pending then Settle(s.(pending := s.pending - {id}), s.pending[id].promise, TimedOut) else s
  }

  function Closed(k: Config, s: State, c: Conn): State {
    if Owns(s, c) then Lose(k, s, c) else s
  }

  function TimerFired(k: Config, s: State, created: Option<nat>): State {
    if s.timer.None? then s else Connect(k, s.(timer := None), created)
  }

  datatype Event =
    | EStart(created: Option<nat>)
    | EStop
    | ERequest(open: bool, sendThrows: bool)
    | EOpen(c: Conn, open: bool, sendThrows: bool)
    | EMessage(c: Conn, frame: Incoming)
    | EClose(c: Conn)
    | EError(c: Conn)
    | ERpcTimeout(id: string)
    | ETimer(created: Option<nat>)
    | EContinue(promise: nat, resolved: bool)

  function Step(k: Config, s: State, e: Event): State {
    match e
    case EStart(created) => Start(k, s, created)
    case EStop => Stop(s)
    case ERequest(open, sendThrows) => Request(s, open, sendThrows)
    case EOpen(c, open, sendThrows) => Opened(s, c, open, sendThrows)
    case EMessage(c, frame) => Answered(s, c, frame)
    case EClose(c) => Closed(k, s, c)
    case EError(_) => s
    case ERpcTimeout(id) => Expired(s, id)
    case ETimer(created) => TimerFired(k, s, created)
    case EContinue(promise, resolved) => Continue(k, s, promise, resolved)
  }

  /** A continuation runs only when its promise has settled, and takes the branch of the outcome. */
  predicate Enabled(s: State, e: Event) {
    e.EContinue? ==>
      if e.resolved then (e.promise, Resolved) in s.outcomes
      else exists o :: o in {Refused, TimedOut, SendFailed, GenerationRejected, NotOpen} && (e.promise, o) in s.outcomes
  }

  // ----- What holds between events -----

  /** One socket or one timer, never both, while it runs; neither once stopped. */
  ghost predicate OneWayBack(s: State) {
    if s.started && !s.stopped then s.current.Some? != s.timer.Some?
    else s.current.None? && s.timer.None?
  }

  /** Only the current generation has anything in flight. */
  ghost predicate InFlightIsCurrent(generation: nat, current: Option<Conn>, pending: map<string, Pending>) {
    && (current.Some? ==> current.value.generation == generation)
    && (forall id :: id in pending ==> current.Some? && pending[id].generation == generation)
  }

  ghost predicate Settled(outcomes: multiset<(nat, Outcome)>, promise: nat) { exists o :: (promise, o) in outcomes }

  ghost predicate InFlight(pending: map<string, Pending>, promise: nat) {
    exists id :: id in pending && pending[id].promise == promise
  }

  /** Every promise handed out is either in flight or has been settled, once. */
  ghost predicate Accounted(handed: nat, outcomes: multiset<(nat, Outcome)>, pending: map<string, Pending>) {
    && (forall p, o :: (p, o) in outcomes ==> p < handed && outcomes[(p, o)] == 1 && !InFlight(pending, p))
    && (forall p, o, q :: (p, o) in outcomes && (p, q) in outcomes ==> o == q)
    && (forall id :: id in pending ==> pending[id].promise < handed)
    && (forall id, jd :: id in pending && jd in pending && id != jd ==> pending[id].promise != pending[jd].promise)
    && (forall p :: 0 <= p < handed ==> Settled(outcomes, p) || InFlight(pending, p))
  }

  predicate IsId(id: string, g: nat, n: nat) { id == RequestId(g, n) }

  /** The id of the n-th request sent, whatever generation sent it. */
  ghost predicate Numbered(id: string, n: nat) { exists g: nat :: IsId(id, g, n) }

  /** Request ids never repeat. */
  ghost predicate IdsFresh(sequence: nat, issued: seq<string>, pending: map<string, Pending>) {
    && |issued| == sequence
    && (forall i :: 0 <= i < |issued| ==> Numbered(issued[i], i + 1))
    && (forall id :: id in pending ==> id in issued)
  }

  ghost predicate ConnectAnswered(connects: map<nat, nat>, outcomes: multiset<(nat, Outcome)>, generation: nat) {
    exists p :: p in connects && connects[p] == generation && (p, Resolved) in outcomes
  }

  /** `ready` means that this generation's own connect was answered. */
  ghost predicate ReadyIsAnswered(ready: bool, current: Option<Conn>, connects: map<nat, nat>,
                                  outcomes: multiset<(nat, Outcome)>) {
    ready ==> current.Some? && ConnectAnswered(connects, outcomes, current.value.generation)
  }

  ghost predicate RegistrationsKnown(registering: map<nat, Conn>, connects: map<nat, nat>) {
    forall p :: p in registering ==> p in connects && connects[p] == registering[p].generation
  }

  ghost predicate ConnectsHanded(connects: map<nat, nat>, handed: nat) { forall p :: p in connects ==> p < handed }

  /** The delays since the last registration are the first of one fixed sequence. */
  ghost predicate DelaysFollow(k: Config, attempt: nat, delays: seq<nat>, timer: Option<nat>) {
    && |delays| == attempt
    && (forall i :: 0 <= i < |delays| ==> delays[i] == Delay(k, i))
    && (timer.Some? ==> delays != [] && timer.value == delays[|delays| - 1])
  }

  /** Everything but `OneWayBack`, which the middle of a step breaks. */
  ghost predicate Core(k: Config, s: State) {
    && InFlightIsCurrent(s.generation, s.current, s.pending)
    && Accounted(s.handed, s.outcomes, s.pending)
    && IdsFresh(s.sequence, s.issued, s.pending)
    && ReadyIsAnswered(s.ready, s.current, s.connects, s.outcomes)
    && RegistrationsKnown(s.registering, s.connects) && ConnectsHanded(s.connects, s.handed)
    && DelaysFollow(k, s.attempt, s.delays, s.timer)
  }

  ghost predicate Valid(k: Config, s: State) { OneWayBack(s) && Core(k, s) }

  // ----- Identifiers -----

  /** Two different numbers of request never share an id. */
  lemma RequestIdsDiffer(g: nat, a: nat, h: nat, b: nat)
    requires RequestId(g, a) == RequestId(h, b)
    ensures g == h && a == b
  {
    DashIsFound(Decimal(g), Decimal(a), Decimal(h), Decimal(b));
    DecimalRoundTrip(g);
    DecimalRoundTrip(h);
    DecimalRoundTrip(a);
    DecimalRoundTrip(b);
  }

  lemma DashIsFound(x: string, y: string, u: string, v: string)
    requires forall k :: 0 <= k < |x| ==> '0' <= x[k] <= '9'
    requires forall k :: 0 <= k < |u| ==> '0' <= u[k] <= '9'
    requires x + ("-" + y) == u + ("-" + v)
    ensures x == u && y == v
  {
    var s, t := x + ("-" + y), u + ("-" + v);
    assert s[|x|] == '-' && t[|u|] == '-';
    assert forall k :: 0 <= k < |x| ==> s[k] == x[k];
    assert forall k :: 0 <= k < |u| ==> t[k] == u[k];
    assert |x| == |u|;
    assert s[..|x|] == x && t[..|u|] == u;
    assert s[|x| + 1..] == y && t[|u| + 1..] == v;
  }

  lemma NewIdIsNew(s: State, g: nat)
    requires IdsFresh(s.sequence, s.issued, s.pending)
    ensures RequestId(g, s.sequence + 1) !in s.issued && RequestId(g, s.sequence + 1) !in s.pending
  {
    var id := RequestId(g, s.sequence + 1);
    if id in s.issued {
      var i :| 0 <= i < |s.issued| && s.issued[i] == id;
      var h: nat :| IsId(s.issued[i], h, i + 1);
      RequestIdsDiffer(g, s.sequence + 1, h, i + 1);
    }
  }

  // ----- Each step keeps it -----

  lemma ScheduleKeeps(k: Config, s: State)
    requires Core(k, s)
    ensures Core(k, ScheduleReconnect(k, s)) && (!s.stopped ==> ScheduleReconnect(k, s).timer.Some?)
  {
  }

  lemma ConnectKeeps(k: Config, s: State, created: Option<nat>)
    requires Core(k, s) && s.started && !s.stopped && !(s.current.Some? && s.timer.Some?)
    ensures Valid(k, Connect(k, s, created))
  {
    if s.current.None? && s.timer.None? {
      var next := s.(generation := s.generation + 1);
      assert InFlightIsCurrent(next.generation, next.current, next.pending);
      if created.None? { ScheduleKeeps(k, next); }
    }
  }

  /** Settling everything in flight at once. */
  lemma AllRejected(handed: nat, outcomes: multiset<(nat, Outcome)>, pending: map<string, Pending>)
    requires Accounted(handed, outcomes, pending)
    ensures Accounted(handed, outcomes + multiset(set id | id
                                                  in pending :: (pending[id].promise, GenerationRejected)), map[])
  {
    var rejected := set id | id in pending :: (pending[id].promise, GenerationRejected);
    var after := outcomes + multiset(rejected);
    forall p, o | (p, o) in rejected ensures InFlight(pending, p) && !Settled(outcomes, p) {
      assert InFlight(pending, p);
    }
    forall p | 0 <= p < handed ensures Settled(after, p) {
      if Settled(outcomes, p) {
        var o :| (p, o) in outcomes;
        assert (p, o) in after;
      } else {
        var id :| id in pending && pending[id].promise == p;
        assert (p, GenerationRejected) in rejected && (p, GenerationRejected) in after;
      }
    }
  }

  /** Rejecting the current generation settles each promise in flight once, and leaves none. */
  lemma RejectKeeps(k: Config, s: State, c: Conn)
    requires Core(k, s) && Owns(s, c)
    ensures var t := RejectGeneration(s.(current := None, ready := false), c.generation);
      Core(k, t) && t.pending == map[]
  {
    var t := RejectGeneration(s.(current := None, ready := false), c.generation);
    AllRejected(s.handed, s.outcomes, s.pending);
    assert t.pending == map[];
    assert (set id | id in s.pending && s.pending[id].generation
            == c.generation :: (s.pending[id].promise, GenerationRejected))
        == (set id | id in s.pending :: (s.pending[id].promise, GenerationRejected));
  }

  lemma LoseKeeps(k: Config, s: State, c: Conn)
    requires Valid(k, s) && Owns(s, c)
    ensures Valid(k, Lose(k, s, c))
  {
    RejectKeeps(k, s, c);
    ScheduleKeeps(k, RejectGeneration(s.(current := None, ready := false), c.generation));
  }

  /** A promise that is handed out and settled at once. */
  lemma SettledAtOnce(handed: nat, outcomes: multiset<(nat, Outcome)>, pending: map<string, Pending>, outcome: Outcome)
    requires Accounted(handed, outcomes, pending)
    ensures Accounted(handed + 1, outcomes + multiset{(handed, outcome)}, pending)
  {
    var after := outcomes + multiset{(handed, outcome)};
    forall p | 0 <= p < handed + 1 ensures Settled(after, p) || InFlight(pending, p) {
      if p == handed {
        assert (p, outcome) in after;
      } else if Settled(outcomes, p) {
        var o :| (p, o) in outcomes;
        assert (p, o) in after;
      }
    }
  }

  /** A promise that leaves the flight is settled. */
  lemma SettledFromFlight(handed: nat, outcomes: multiset<(nat, Outcome)>, pending: map<string, Pending>, id: string,
                          outcome: Outcome)
    requires Accounted(handed, outcomes, pending) && id in pending
    ensures Accounted(handed, outcomes + multiset{(pending[id].promise, outcome)}, pending - {id})
  {
    var promise := pending[id].promise;
    var after, rest := outcomes + multiset{(promise, outcome)}, pending - {id};
    assert InFlight(pending, promise);
    forall p ensures InFlight(rest, p) <==> InFlight(pending, p) && p != promise {
      if InFlight(pending, p) && p != promise {
        var jd :| jd in pending && pending[jd].promise == p;
        assert jd in rest;
      }
    }
    forall p | 0 <= p < handed ensures Settled(after, p) || InFlight(rest, p) {
      if p == promise {
        assert (p, outcome) in after;
      } else if Settled(outcomes, p) {
        var o :| (p, o) in outcomes;
        assert (p, o) in after;
      }
    }
  }

  lemma Sent(handed: nat, outcomes: multiset<(nat, Outcome)>, pending: map<string, Pending>, generation: nat,
             id: string)
    requires Accounted(handed, outcomes, pending) && id !in pending
    ensures Accounted(handed + 1, outcomes, pending[id := Pending(generation, handed)])
  {
    var after := pending[id := Pending(generation, handed)];
    forall p ensures InFlight(after, p) <==> InFlight(pending, p) || p == handed {
      if InFlight(pending, p) {
        var jd :| jd in pending && pending[jd].promise == p;
        assert jd in after && after[jd].promise == p;
      }
      if p == handed { assert after[id].promise == p; }
    }
  }

  lemma IdsStayFresh(sequence: nat, issued: seq<string>, pending: map<string, Pending>, g: nat,
                     after: map<string, Pending>)
    requires IdsFresh(sequence, issued, pending)
    requires forall id :: id in after ==> id in pending || id == RequestId(g, sequence + 1)
    ensures IdsFresh(sequence + 1, issued + [RequestId(g, sequence + 1)], after)
  {
    assert IsId(RequestId(g, sequence + 1), g, sequence + 1);
    assert Numbered(RequestId(g, sequence + 1), sequence + 1);
  }

  /** Readiness survives more settlements. */
  lemma AnsweredStays(connects: map<nat, nat>, outcomes: multiset<(nat, Outcome)>, more: multiset<(nat, Outcome)>,
                      generation: nat)
    requires ConnectAnswered(connects, outcomes, generation)
    ensures ConnectAnswered(connects, outcomes + more, generation)
  {
    var p :| p in connects && connects[p] == generation && (p, Resolved) in outcomes;
    assert (p, Resolved) in outcomes + more;
  }

  lemma ReadyStays(s: State, more: multiset<(nat, Outcome)>)
    requires ReadyIsAnswered(s.ready, s.current, s.connects, s.outcomes)
    ensures ReadyIsAnswered(s.ready, s.current, s.connects, s.outcomes + more)
  {
    if s.ready { AnsweredStays(s.connects, s.outcomes, more, s.current.value.generation); }
  }

  lemma RefusedAtOnceKeeps(k: Config, s: State)
    requires Valid(k, s)
    ensures Valid(k, Settle(s.(handed := s.handed + 1), s.handed, NotOpen))
  {
    SettledAtOnce(s.handed, s.outcomes, s.pending, NotOpen);
    ReadyStays(s, multiset{(s.handed, NotOpen)});
  }

  lemma SendThrowsKeeps(k: Config, s: State, g: nat)
    requires Valid(k, s)
    ensures Valid(k, Settle(s.(handed := s.handed + 1, sequence := s.sequence + 1,
                               issued := s.issued + [RequestId(g, s.sequence + 1)]),
                            s.handed, SendFailed))
  {
    IdsStayFresh(s.sequence, s.issued, s.pending, g, s.pending);
    SettledAtOnce(s.handed, s.outcomes, s.pending, SendFailed);
    ReadyStays(s, multiset{(s.handed, SendFailed)});
  }

  lemma SentKeeps(k: Config, s: State, c: Conn)
    requires Valid(k, s) && Owns(s, c)
    ensures var id := RequestId(c.generation, s.sequence + 1);
      Valid(k, s.(handed := s.handed + 1, sequence := s.sequence + 1, issued := s.issued + [id],
                  pending := s.pending[id := Pending(c.generation, s.handed)]))
  {
    var id := RequestId(c.generation, s.sequence + 1);
    NewIdIsNew(s, c.generation);
    IdsStayFresh(s.sequence, s.issued, s.pending, c.generation, s.pending[id := Pending(c.generation, s.handed)]);
    Sent(s.handed, s.outcomes, s.pending, c.generation, id);
  }

  lemma RequestOnKeeps(k: Config, s: State, c: Conn, open: bool, sendThrows: bool)
    requires Valid(k, s)
    ensures Valid(k, RequestOn(s, c, open, sendThrows))
  {
    if !Owns(s, c) || !open {
      RefusedAtOnceKeeps(k, s);
    } else if sendThrows {
      SendThrowsKeeps(k, s, c.generation);
    } else {
      SentKeeps(k, s, c);
    }
  }

  lemma OpenedKeeps(k: Config, s: State, c: Conn, open: bool, sendThrows: bool)
    requires Valid(k, s)
    ensures Valid(k, Opened(s, c, open, sendThrows))
  {
    if Owns(s, c) {
      RequestOnKeeps(k, s, c, open, sendThrows);
      ConnectNoted(k, RequestOn(s, c, open, sendThrows), s.handed, c);
    }
  }

  /** Noting a promise as a connect changes no answer about the connects before it. */
  lemma ConnectNoted(k: Config, s: State, promise: nat, c: Conn)
    requires Valid(k, s) && promise !in s.connects && promise < s.handed
    ensures Valid(k, s.(registering := s.registering[promise := c], connects := s.connects[promise := c.generation]))
  {
    if s.ready {
      var p :| p in s.connects && s.connects[p] == s.current.value.generation && (p, Resolved) in s.outcomes;
      assert p in s.connects[promise := c.generation];
    }
  }

  lemma ContinueKeeps(k: Config, s: State, promise: nat, resolved: bool)
    requires Valid(k, s) && Enabled(s, EContinue(promise, resolved))
    ensures Valid(k, Continue(k, s, promise, resolved))
  {
    if promise in s.registering {
      var c := s.registering[promise];
      var next := s.(registering := s.registering - {promise});
      assert Valid(k, next);
      if Owns(s, c) {
        if resolved {
          assert ConnectAnswered(s.connects, s.outcomes, c.generation) by {
            assert promise in s.connects && s.connects[promise] == c.generation && (promise, Resolved) in s.outcomes;
          }
        } else {
          LoseKeeps(k, next, c);
        }
      }
    }
  }

  lemma StopKeeps(k: Config, s: State)
    requires Valid(k, s)
    ensures Valid(k, Stop(s)) && Stop(s).pending == map[]
  {
    if s.current.Some? {
      RejectKeeps(k, s, s.current.value);
    } else {
      assert s.pending == map[];
    }
  }

  lemma SettlesOneKeeps(k: Config, s: State, id: string, outcome: Outcome)
    requires Valid(k, s) && id in s.pending
    ensures Valid(k, Settle(s.(pending := s.pending - {id}), s.pending[id].promise, outcome))
  {
    SettledFromFlight(s.handed, s.outcomes, s.pending, id, outcome);
    ReadyStays(s, multiset{(s.pending[id].promise, outcome)});
  }

  lemma RequestKeeps(k: Config, s: State, open: bool, sendThrows: bool)
    requires Valid(k, s)
    ensures Valid(k, Request(s, open, sendThrows))
  {
    if !s.ready || s.current.None? {
      RefusedAtOnceKeeps(k, s);
    } else {
      RequestOnKeeps(k, s, s.current.value, open, sendThrows);
    }
  }

  lemma StartKeeps(k: Config, s: State, created: Option<nat>)
    requires Valid(k, s)
    ensures Valid(k, Start(k, s, created))
  {
    ConnectKeeps(k, s.(stopped := false, started := true), created);
  }

  lemma AnsweredKeeps(k: Config, s: State, c: Conn, frame: Incoming)
    requires Valid(k, s)
    ensures Valid(k, Answered(s, c, frame))
  {
    if Answered(s, c, frame) != s { SettlesOneKeeps(k, s, frame.id, if frame.isError then Refused else Resolved); }
  }

  lemma ExpiredKeeps(k: Config, s: State, id: string)
    requires Valid(k, s)
    ensures Valid(k, Expired(s, id))
  {
    if id in s.pending { SettlesOneKeeps(k, s, id, TimedOut); }
  }

  lemma ClosedKeeps(k: Config, s: State, c: Conn)
    requires Valid(k, s)
    ensures Valid(k, Closed(k, s, c))
  {
    if Owns(s, c) { LoseKeeps(k, s, c); }
  }

  lemma TimerKeeps(k: Config, s: State, created: Option<nat>)
    requires Valid(k, s)
    ensures Valid(k, TimerFired(k, s, created))
  {
    if s.timer.Some? { ConnectKeeps(k, s.(timer := None), created); }
  }

  lemma SocketEventKeeps(k: Config, s: State, e: Event)
    requires Valid(k, s) && (e.EOpen? || e.EMessage? || e.EClose? || e.EError?)
    ensures Valid(k, Step(k, s, e))
  {
    if e.EOpen? {
      OpenedKeeps(k, s, e.c, e.open, e.sendThrows);
      assert Step(k, s, e) == Opened(s, e.c, e.open, e.sendThrows);
    } else if e.EMessage? {
      AnsweredKeeps(k, s, e.c, e.frame);
      assert Step(k, s, e) == Answered(s, e.c, e.frame);
    } else if e.EClose? {
      ClosedKeeps(k, s, e.c);
      assert Step(k, s, e) == Closed(k, s, e.c);
    }
  }

  lemma CallKeeps(k: Config, s: State, e: Event)
    requires Valid(k, s) && (e.EStart? || e.EStop? || e.ERequest?)
    ensures Valid(k, Step(k, s, e))
  {
    match e {
      case EStart(created) => StartKeeps(k, s, created);
      case EStop => StopKeeps(k, s);
      case ERequest(open, sendThrows) => RequestKeeps(k, s, open, sendThrows);
    }
  }

  lemma StepKeepsValid(k: Config, s: State, e: Event)
    requires Valid(k, s) && Enabled(s, e)
    ensures Valid(k, Step(k, s, e))
  {
    match e {
      case ERpcTimeout(id) => ExpiredKeeps(k, s, id);
      case ETimer(created) => TimerKeeps(k, s, created);
      case EContinue(promise, resolved) => ContinueKeeps(k, s, promise, resolved);
      case _ => if e.EStart? || e.EStop? || e.ERequest? { CallKeeps(k, s, e); } else { SocketEventKeeps(k, s, e); }
    }
  }

  // ----- Runs -----

  function After(k: Config, es: seq<Event>): State {
    if es == [] then START else Step(k, After(k, es[..|es| - 1]), es[|es| - 1])
  }

  ghost predicate IsRun(k: Config, es: seq<Event>) {
    es == [] || (IsRun(k, es[..|es| - 1]) && Enabled(After(k, es[..|es| - 1]), es[|es| - 1]))
  }

  /** However the events interleave, everything above holds between any two of them. */
  lemma {:induction false} RunKeepsValid(k: Config, es: seq<Event>)
    requires IsRun(k, es)
    ensures Valid(k, After(k, es))
  {
    if es != [] {
      RunKeepsValid(k, es[..|es| - 1]);
      StepKeepsValid(k, After(k, es[..|es| - 1]), es[|es| - 1]);
    }
  }

  ghost predicate OnlyAdds(s: State, t: State) { s.outcomes <= t.outcomes && s.handed <= t.handed }

  lemma ConnectOnlyAdds(k: Config, s: State, created: Option<nat>)
    ensures OnlyAdds(s, Connect(k, s, created))
  {
  }

  lemma RequestOnlyAdds(s: State, c: Conn, open: bool, sendThrows: bool)
    ensures OnlyAdds(s, RequestOn(s, c, open, sendThrows))
  {
  }

  lemma RejectOnlyAdds(s: State, g: nat)
    ensures OnlyAdds(s, RejectGeneration(s, g))
  {
  }

  lemma LoseOnlyAdds(k: Config, s: State, c: Conn)
    ensures OnlyAdds(s, Lose(k, s, c))
  {
    RejectOnlyAdds(s.(current := None, ready := false), c.generation);
  }

  lemma ContinueOnlyAdds(k: Config, s: State, promise: nat, resolved: bool)
    ensures OnlyAdds(s, Continue(k, s, promise, resolved))
  {
    if promise in s.registering {
      LoseOnlyAdds(k, s.(registering := s.registering - {promise}), s.registering[promise]);
    }
  }

  lemma StopOnlyAdds(s: State)
    ensures OnlyAdds(s, Stop(s))
  {
    if s.current.Some? {
      RejectOnlyAdds(s.(stopped := true, timer := None, current := None, ready := false), s.current.value.generation);
    }
  }

  lemma AnsweredOnlyAdds(s: State, c: Conn, frame: Incoming)
    ensures OnlyAdds(s, Answered(s, c, frame))
  {
  }

  lemma ExpiredOnlyAdds(s: State, id: string)
    ensures OnlyAdds(s, Expired(s, id))
  {
  }

  lemma RequestedOnlyAdds(s: State, open: bool, sendThrows: bool)
    ensures OnlyAdds(s, Request(s, open, sendThrows))
  {
    if s.ready && s.current.Some? { RequestOnlyAdds(s, s.current.value, open, sendThrows); }
  }

  lemma OpenedOnlyAdds(s: State, c: Conn, open: bool, sendThrows: bool)
    ensures OnlyAdds(s, Opened(s, c, open, sendThrows))
  {
    RequestOnlyAdds(s, c, open, sendThrows);
  }

  lemma ClosedOnlyAdds(k: Config, s: State, c: Conn)
    ensures OnlyAdds(s, Closed(k, s, c))
  {
    LoseOnlyAdds(k, s, c);
  }

  lemma TimerOnlyAdds(k: Config, s: State, created: Option<nat>)
    ensures OnlyAdds(s, TimerFired(k, s, created))
  {
    ConnectOnlyAdds(k, s.(timer := None), created);
  }

  lemma StartOnlyAdds(k: Config, s: State, created: Option<nat>)
    ensures OnlyAdds(s, Start(k, s, created))
  {
    ConnectOnlyAdds(k, s.(stopped := false, started := true), created);
  }

  /** No settlement is ever taken back or replaced by a step. */
  lemma SettlementsAreFinal(k: Config, s: State, e: Event)
    ensures OnlyAdds(s, Step(k, s, e))
  {
    match e {
      case EStart(created) => StartOnlyAdds(k, s, created);
      case EStop => StopOnlyAdds(s);
      case ERequest(open, sendThrows) => RequestedOnlyAdds(s, open, sendThrows);
      case EOpen(c, open, sendThrows) => OpenedOnlyAdds(s, c, open, sendThrows);
      case EMessage(c, frame) => AnsweredOnlyAdds(s, c, frame);
      case EClose(c) => ClosedOnlyAdds(k, s, c);
      case EError(_) =>
      case ERpcTimeout(id) => ExpiredOnlyAdds(s, id);
      case ETimer(created) => TimerOnlyAdds(k, s, created);
      case EContinue(promise, resolved) => ContinueOnlyAdds(k, s, promise, resolved);
    }
  }

  lemma {:induction false} SettlementsStay(k: Config, es: seq<Event>, n: nat)
    requires n <= |es|
    ensures After(k, es[..n]).outcomes <= After(k, es).outcomes
    decreases |es|
  {
    if n == |es| {
      assert es[..n] == es;
    } else {
      var before := es[..|es| - 1];
      SettlementsStay(k, before, n);
      assert before[..n] == es[..n];
      SettlementsAreFinal(k, After(k, before), es[|es| - 1]);
    }
  }

  /**
   * A promise handed out is settled at most once, with one outcome that no later event changes;
   * while it is unsettled its request is in flight on the current connection, so it has been
   * settled whenever there is none, and after `stop`.
   */
  lemma PromisesSettleOnce(k: Config, es: seq<Event>, n: nat, promise: nat, o: Outcome, q: Outcome)
    requires IsRun(k, es) && n <= |es| && promise < After(k, es).handed
    ensures var s := After(k, es);
      && s.outcomes[(promise, o)] <= 1
      && ((promise, o) in s.outcomes && (promise, q) in s.outcomes ==> o == q)
      && ((promise, o) in After(k, es[..n]).outcomes ==> (promise, o) in s.outcomes)
      && (Settled(s.outcomes, promise) <==> !InFlight(s.pending, promise))
      && (s.current.None? || s.stopped ==> Settled(s.outcomes, promise))
  {
    RunKeepsValid(k, es);
    SettlementsStay(k, es, n);
    var s := After(k, es);
    if s.current.None? { assert s.pending == map[]; }
  }

  /** No two requests of a run carry the same id. */
  lemma RequestIdsNeverRepeat(k: Config, es: seq<Event>, i: nat, j: nat)
    requires IsRun(k, es) && i < j < |After(k, es).issued|
    ensures After(k, es).issued[i] != After(k, es).issued[j]
  {
    RunKeepsValid(k, es);
    var issued := After(k, es).issued;
    var g: nat :| IsId(issued[i], g, i + 1);
    var h: nat :| IsId(issued[j], h, j + 1);
    if issued[i] == issued[j] { RequestIdsDiffer(g, i + 1, h, j + 1); }
  }

  /** An event of any connection but the present one, such as an older generation's, changes nothing at all. */
  lemma OldSocketsChangeNothing(k: Config, es: seq<Event>, e: Event)
    requires IsRun(k, es) && (e.EOpen? || e.EMessage? || e.EClose? || e.EError?)
    requires e.c.generation != After(k, es).generation || After(k, es).current != Some(e.c)
    ensures Step(k, After(k, es), e) == After(k, es)
  {
    RunKeepsValid(k, es);
  }

  lemma {:induction false} PowGrows(a: nat, b: nat)
    requires a <= b
    ensures 1 <= Pow2(a) <= Pow2(b)
    decreases b
  {
    if a < b { PowGrows(a, b - 1); } else if a > 0 { PowGrows(a - 1, a - 1); }
  }

  lemma DelayGrows(k: Config, a: nat, b: nat)
    requires a <= b
    ensures Delay(k, a) <= Delay(k, b) <= k.maxMs
    ensures Delay(k, a) >= Min(k.baseMs, k.maxMs)
  {
    PowGrows(Min(a, 10), Min(b, 10));
    Counting.MulGrows(Pow2(Min(a, 10)), Pow2(Min(b, 10)), k.baseMs);
    Counting.MulGrows(1, Pow2(Min(a, 10)), k.baseMs);
  }

  /** A registration that goes through starts the delays over; nothing else takes one back. */
  lemma RegistrationStartsOver(k: Config, s: State, p: nat)
    requires p in s.registering && s.current == Some(s.registering[p])
    ensures var t := Continue(k, s, p, true);
      t.ready && t.delays == [] && t.attempt == 0 && t.current == s.current && t.timer == s.timer
  {
  }

  /** Each of the first ten delays is twice the one before it, up to the maximum; from then on they are all alike. */
  lemma DelaysDouble(k: Config, es: seq<Event>, i: nat)
    requires IsRun(k, es) && i + 1 < |After(k, es).delays|
    ensures var delays := After(k, es).delays;
      delays[i + 1] == if i >= 10 then delays[i] else if 2 * delays[i] < k.maxMs then 2 * delays[i] else k.maxMs
  {
    RunKeepsValid(k, es);
    DelayDoubles(k, i);
  }

  lemma DelayDoubles(k: Config, i: nat)
    ensures Delay(k, i + 1)
         == if i >= 10 then Delay(k, i) else if 2 * Delay(k, i) < k.maxMs then 2 * Delay(k, i) else k.maxMs
  {
    if i < 10 { Twice(k.baseMs, Pow2(i), Pow2(i + 1)); }
  }

  lemma Twice(base: nat, power: nat, next: nat)
    requires next == 2 * power
    ensures base * next == 2 * (base * power)
  {
  }

  /** Until a registration the delays never decrease, and none exceeds the maximum; a registration starts them over. */
  lemma DelaysNeverDecrease(k: Config, es: seq<Event>, i: nat, j: nat)
    requires IsRun(k, es) && i <= j < |After(k, es).delays|
    ensures var delays := After(k, es).delays;
      && delays[i] <= delays[j] <= k.maxMs
      && delays[0] == Min(k.maxMs, k.baseMs)
  {
    RunKeepsValid(k, es);
    DelayGrows(k, i, j);
    assert Pow2(0) == 1;
  }
}
