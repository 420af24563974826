/**
 * The runs of Lifecycle.dfy told from their events: what puts a request in flight, what settles its
 * promise and how, which connection is the present one, and when it is registered.
 */
module LifecycleCauses {
  import opened Wrappers
  import opened Texts
  import opened Histories
  import opened Lifecycle

  // ----- What an event is to a state -----

  /** The event sends a request over the present connection, which is open: a caller's, or its own registration. */
  predicate Sends(s: State, e: Event, c: Conn) {
    && s.current == Some(c)
    && ((e.ERequest? && s.ready && e.open) || (e.EOpen? && e.c == c && e.open))
  }

  /** The request of promise p goes out under `id`. */
  predicate Launches(s: State, e: Event, id: string, c: Conn, p: nat) {
    && Sends(s, e, c) && !e.sendThrows && p == s.handed
    && id == Decimal(c.generation) + ("-" + Decimal(s.sequence + 1))
  }

  predicate IsInFlight(s: State, id: string, generation: nat, p: nat) {
    id in s.pending && s.pending[id] == Pending(generation, p)
  }

  /** The connection is given up: `stop`, its close, or the refusal of its own registration. */
  predicate Loses(s: State, e: Event, c: Conn) {
    && s.current == Some(c)
    && (e.EStop? || e == EClose(c)
        || (e.EContinue? && !e.resolved && e.promise in s.registering && s.registering[e.promise] == c))
  }

  /** What settles promise p, and how. */
  ghost predicate Settles(s: State, e: Event, p: nat, o: Outcome) {
    match o
    case Resolved => AnswersPromise(s, e, p, false)
    case Refused => AnswersPromise(s, e, p, true)
    case TimedOut => e.ERpcTimeout? && e.id in s.pending && s.pending[e.id].promise == p
    case SendFailed => p == s.handed && s.current.Some? && Sends(s, e, s.current.value) && e.sendThrows
    case GenerationRejected => InFlight(s.pending, p) && s.current.Some? && Loses(s, e, s.current.value)
    case NotOpen =>
      && p == s.handed
      && ((e.ERequest? && (!s.ready || s.current.None? || !e.open))
          || (e.EOpen? && s.current == Some(e.c) && !e.open))
  }

  /** A frame on the present connection that carries the id the promise's request went out under on it. */
  predicate AnswersPromise(s: State, e: Event, p: nat, isError: bool) {
    && e.EMessage? && s.current == Some(e.c) && e.frame.Answer? && e.frame.isError == isError
    && IsInFlight(s, e.frame.id, e.c.generation, p)
  }

  // ----- One event -----

  ghost predicate Has(s: State, p: nat, o: Outcome) { (p, o) in s.outcomes }

  lemma RefusedAtOnceSettles(s: State, c: Conn, open: bool, sendThrows: bool, p: nat, o: Outcome)
    requires s.current != Some(c) || !open
    ensures Has(RequestOn(s, c, open, sendThrows), p, o) <==> Has(s, p, o) || (p == s.handed && o == NotOpen)
  {
  }

  lemma SentSettles(s: State, c: Conn, sendThrows: bool, p: nat, o: Outcome)
    requires s.current == Some(c)
    ensures Has(RequestOn(s, c, true, sendThrows), p, o) <==>
            Has(s, p, o) || (sendThrows && p == s.handed && o == SendFailed)
  {
  }

  lemma RequestOnSettles(s: State, c: Conn, open: bool, sendThrows: bool, p: nat, o: Outcome)
    ensures Has(RequestOn(s, c, open, sendThrows), p, o) <==>
      || Has(s, p, o)
      || (p == s.handed && (s.current != Some(c) || !open) && o == NotOpen)
      || (p == s.handed && s.current == Some(c) && open && sendThrows && o == SendFailed)
  {
    if s.current != Some(c) || !open {
      RefusedAtOnceSettles(s, c, open, sendThrows, p, o);
    } else {
      SentSettles(s, c, sendThrows, p, o);
    }
  }

  lemma LoseSettles(k: Config, s: State, c: Conn, p: nat, o: Outcome)
    requires Core(k, s) && s.current == Some(c)
    ensures Has(Lose(k, s, c), p, o) <==> Has(s, p, o) || (o == GenerationRejected && InFlight(s.pending, p))
    ensures Lose(k, s, c).pending == map[]
  {
    RejectSettles(s.(current := None, ready := false), c.generation, p, o);
    RejectKeeps(k, s, c);
  }

  lemma RejectSettles(s: State, g: nat, p: nat, o: Outcome)
    requires forall id :: id in s.pending ==> s.pending[id].generation == g
    ensures Has(RejectGeneration(s, g), p, o) <==> Has(s, p, o) || (o == GenerationRejected && InFlight(s.pending, p))
  {
    var rejected := set id | id in s.pending && s.pending[id].generation == g ::
                      (s.pending[id].promise, GenerationRejected);
    if InFlight(s.pending, p) {
      var id :| id in s.pending && s.pending[id].promise == p;
      assert (p, GenerationRejected) in rejected;
    }
    assert (p, o) in multiset(rejected) <==> (p, o) in rejected;
  }

  lemma StopSettles(k: Config, s: State, p: nat, o: Outcome)
    requires Valid(k, s)
    ensures Has(Stop(s), p, o) <==> Has(s, p, o) || Settles(s, EStop, p, o)
  {
    if s.current.Some? {
      RejectSettles(s.(stopped := true, timer := None, current := None, ready := false), s.current.value.generation,
                    p, o);
    }
  }

  lemma ContinueSettles(k: Config, s: State, q: nat, resolved: bool, p: nat, o: Outcome)
    requires Valid(k, s)
    ensures Has(Continue(k, s, q, resolved), p, o) <==> Has(s, p, o) || Settles(s, EContinue(q, resolved), p, o)
  {
    if q in s.registering && s.current == Some(s.registering[q]) && !resolved {
      RefusalSettles(k, s, q, p, o);
    } else {
      OtherContinuationsSettleNothing(k, s, q, resolved);
    }
  }

  lemma OtherContinuationsSettleNothing(k: Config, s: State, q: nat, resolved: bool)
    requires resolved || q !in s.registering || s.current != Some(s.registering[q])
    ensures Continue(k, s, q, resolved).outcomes == s.outcomes
  {
  }

  lemma RefusalSettles(k: Config, s: State, q: nat, p: nat, o: Outcome)
    requires Core(k, s) && q in s.registering && s.current == Some(s.registering[q])
    ensures Has(Continue(k, s, q, false), p, o) <==> Has(s, p, o) || (o == GenerationRejected && InFlight(s.pending, p))
    ensures Continue(k, s, q, false).pending == map[]
  {
    var next := s.(registering := s.registering - {q});
    assert Core(k, next);
    LoseSettles(k, next, s.registering[q], p, o);
  }

  lemma AnsweredSettles(s: State, c: Conn, frame: Incoming, p: nat, o: Outcome)
    ensures Has(Answered(s, c, frame), p, o) <==> Has(s, p, o) || Settles(s, EMessage(c, frame), p, o)
  {
  }

  lemma OpenedSettles(s: State, c: Conn, open: bool, sendThrows: bool, p: nat, o: Outcome)
    ensures Has(Opened(s, c, open, sendThrows), p, o) <==> Has(s, p, o) || Settles(s, EOpen(c, open, sendThrows), p, o)
  {
    RequestOnSettles(s, c, open, sendThrows, p, o);
  }

  lemma RequestSettles(s: State, open: bool, sendThrows: bool, p: nat, o: Outcome)
    ensures Has(Request(s, open, sendThrows), p, o) <==> Has(s, p, o) || Settles(s, ERequest(open, sendThrows), p, o)
  {
    if s.ready && s.current.Some? { RequestOnSettles(s, s.current.value, open, sendThrows, p, o); }
  }

  lemma ClosedSettles(k: Config, s: State, c: Conn, p: nat, o: Outcome)
    requires Valid(k, s)
    ensures Has(Closed(k, s, c), p, o) <==> Has(s, p, o) || Settles(s, EClose(c), p, o)
  {
    if s.current == Some(c) { LoseSettles(k, s, c, p, o); }
  }

  lemma ExpiredSettles(s: State, id: string, p: nat, o: Outcome)
    ensures Has(Expired(s, id), p, o) <==> Has(s, p, o) || Settles(s, ERpcTimeout(id), p, o)
  {
  }

  lemma ConnectSettlesNothing(k: Config, s: State, created: Option<nat>)
    ensures Connect(k, s, created).outcomes == s.outcomes && Connect(k, s, created).pending == s.pending
  {
  }

  lemma CallSettles(k: Config, s: State, e: Event, p: nat, o: Outcome)
    requires Valid(k, s) && (e.EStart? || e.EStop? || e.ERequest? || e.ETimer?)
    ensures Has(Step(k, s, e), p, o) <==> Has(s, p, o) || Settles(s, e, p, o)
  {
    match e {
      case EStart(created) => ConnectSettlesNothing(k, s.(stopped := false, started := true), created);
      case EStop => StopSettles(k, s, p, o);
      case ERequest(open, sendThrows) => RequestSettles(s, open, sendThrows, p, o);
      case ETimer(created) => if s.timer.Some? { ConnectSettlesNothing(k, s.(timer := None), created); }
    }
  }

  lemma SocketEventSettles(k: Config, s: State, e: Event, p: nat, o: Outcome)
    requires Valid(k, s) && (e.EOpen? || e.EMessage? || e.EClose? || e.EError?)
    ensures Has(Step(k, s, e), p, o) <==> Has(s, p, o) || Settles(s, e, p, o)
  {
    match e {
      case EOpen(c, open, sendThrows) => OpenedSettles(s, c, open, sendThrows, p, o);
      case EMessage(c, frame) => AnsweredSettles(s, c, frame, p, o);
      case EClose(c) => ClosedSettles(k, s, c, p, o);
      case EError(_) =>
    }
  }

  /** One event settles what it is the cause of, that way, and nothing else. */
  lemma StepSettles(k: Config, s: State, e: Event, p: nat, o: Outcome)
    requires Valid(k, s)
    ensures Has(Step(k, s, e), p, o) <==> Has(s, p, o) || Settles(s, e, p, o)
  {
    if e.EStart? || e.EStop? || e.ERequest? || e.ETimer? {
      CallSettles(k, s, e, p, o);
    } else if e.EOpen? || e.EMessage? || e.EClose? || e.EError? {
      SocketEventSettles(k, s, e, p, o);
    } else if e.ERpcTimeout? {
      ExpiredSettles(s, e.id, p, o);
    } else {
      ContinueSettles(k, s, e.promise, e.resolved, p, o);
    }
  }

  /** The request is answered, times out, or its connection is given up. */
  ghost predicate Lands(s: State, e: Event, p: nat) {
    || AnswersPromise(s, e, p, false) || AnswersPromise(s, e, p, true)
    || (e.ERpcTimeout? && e.id in s.pending && s.pending[e.id].promise == p)
    || (s.current.Some? && Loses(s, e, s.current.value))
  }

  ghost predicate LaunchesOn(s: State, e: Event, id: string, generation: nat, p: nat) {
    s.current.Some? && s.current.value.generation == generation && Launches(s, e, id, s.current.value, p)
  }

  lemma RequestOnLaunches(k: Config, s: State, c: Conn, open: bool, sendThrows: bool, id: string, g: nat, p: nat)
    requires Valid(k, s)
    ensures IsInFlight(RequestOn(s, c, open, sendThrows), id, g, p) <==>
      || IsInFlight(s, id, g, p)
      || (s.current == Some(c) && open && !sendThrows && p == s.handed && g == c.generation
          && id == RequestId(c.generation, s.sequence + 1))
  {
    NewIdIsNew(s, c.generation);
  }

  lemma LostHasNoFlight(k: Config, s: State, e: Event)
    requires Valid(k, s) && s.current.Some? && Loses(s, e, s.current.value)
    ensures Step(k, s, e).pending == map[] && Step(k, s, e).current == None
    ensures Step(k, s, e).generation == s.generation && !Step(k, s, e).ready
  {
    var c := s.current.value;
    if e.EStop? {
      StopKeeps(k, s);
    } else if e.EClose? {
      LoseSettles(k, s, c, 0, NotOpen);
    } else {
      RefusalSettles(k, s, e.promise, 0, NotOpen);
    }
  }

  lemma SentFlight(k: Config, s: State, e: Event, id: string, g: nat, p: nat)
    requires Valid(k, s) && (e.ERequest? || e.EOpen?)
    ensures IsInFlight(Step(k, s, e), id, g, p) <==> LaunchesOn(s, e, id, g, p) || IsInFlight(s, id, g, p)
  {
    if e.EOpen? {
      RequestOnLaunches(k, s, e.c, e.open, e.sendThrows, id, g, p);
    } else if s.ready && s.current.Some? {
      RequestOnLaunches(k, s, s.current.value, e.open, e.sendThrows, id, g, p);
    }
  }

  lemma WithoutOne(pending: map<string, Pending>, landed: string, id: string, g: nat, p: nat)
    requires landed in pending
    requires forall i, j :: i in pending && j in pending && i != j ==> pending[i].promise != pending[j].promise
    ensures var left := pending - {landed};
      (id in left && left[id] == Pending(g, p)) <==>
      id in pending && pending[id] == Pending(g, p) && p != pending[landed].promise
  {
  }

  lemma AnsweredFlight(k: Config, s: State, c: Conn, frame: Incoming, id: string, g: nat, p: nat)
    requires Valid(k, s)
    ensures IsInFlight(Answered(s, c, frame), id, g, p) <==>
            IsInFlight(s, id, g, p) && !Lands(s, EMessage(c, frame), p)
  {
    if s.current == Some(c) && frame.Answer? && frame.id in s.pending {
      WithoutOne(s.pending, frame.id, id, g, p);
      assert s.pending[frame.id].generation == c.generation;
      assert Answered(s, c, frame).pending == s.pending - {frame.id};
      assert Lands(s, EMessage(c, frame), p) <==> s.pending[frame.id].promise == p;
    } else {
      assert Answered(s, c, frame) == s;
    }
  }

  lemma ExpiredFlight(k: Config, s: State, expired: string, id: string, g: nat, p: nat)
    requires Valid(k, s)
    ensures IsInFlight(Expired(s, expired), id, g, p) <==>
            IsInFlight(s, id, g, p) && !Lands(s, ERpcTimeout(expired), p)
  {
    if expired in s.pending {
      WithoutOne(s.pending, expired, id, g, p);
      assert Expired(s, expired).pending == s.pending - {expired};
    }
  }

  lemma OtherEventsKeepFlight(k: Config, s: State, e: Event)
    requires Valid(k, s) && (s.current.Some? ==> !Loses(s, e, s.current.value))
    requires e.EStart? || e.EStop? || e.EClose? || e.EError? || e.ETimer? || e.EContinue?
    ensures Step(k, s, e).pending == s.pending
  {
    if e.ETimer? && s.timer.Some? { ConnectSettlesNothing(k, s.(timer := None), e.created); }
    if e.EStart? { ConnectSettlesNothing(k, s.(stopped := false, started := true), e.created); }
  }

  lemma StepFlight(k: Config, s: State, e: Event, id: string, g: nat, p: nat)
    requires Valid(k, s)
    ensures IsInFlight(Step(k, s, e), id, g, p) <==>
            LaunchesOn(s, e, id, g, p) || (IsInFlight(s, id, g, p) && !Lands(s, e, p))
  {
    if s.current.Some? && Loses(s, e, s.current.value) {
      LostHasNoFlight(k, s, e);
    } else if e.ERequest? || e.EOpen? {
      SentFlight(k, s, e, id, g, p);
    } else if e.EMessage? {
      AnsweredFlight(k, s, e.c, e.frame, id, g, p);
    } else if e.ERpcTimeout? {
      ExpiredFlight(k, s, e.id, id, g, p);
    } else {
      OtherEventsKeepFlight(k, s, e);
    }
  }

  /** A connection is made when there is none and the reconnect timer fires, or `start` finds none set. */
  predicate Makes(s: State, e: Event, c: Conn) {
    && ((e.EStart? && s.current.None? && s.timer.None?) || (e.ETimer? && s.timer.Some?))
    && e.created == Some(c.ws) && c.generation == s.generation + 1
  }

  lemma MadeConnection(k: Config, s: State, e: Event, c: Conn)
    requires Valid(k, s) && (e.EStart? || e.ETimer?)
    ensures Step(k, s, e).current == Some(c) <==> Makes(s, e, c) || s.current == Some(c)
  {
  }

  lemma OtherEventsKeepConnection(k: Config, s: State, e: Event)
    requires Valid(k, s) && !e.EStart? && !e.ETimer? && (s.current.Some? ==> !Loses(s, e, s.current.value))
    ensures Step(k, s, e).current == s.current
  {
    match e {
      case EStop =>
      case ERequest(_, _) =>
      case EOpen(_, _, _) =>
      case EMessage(_, _) =>
      case EClose(_) =>
      case ERpcTimeout(_) =>
      case EContinue(_, _) =>
      case _ =>
    }
  }

  lemma StepConnection(k: Config, s: State, e: Event, c: Conn)
    requires Valid(k, s)
    ensures Step(k, s, e).current == Some(c) <==> Makes(s, e, c) || (s.current == Some(c) && !Loses(s, e, c))
  {
    if e.EStart? || e.ETimer? {
      MadeConnection(k, s, e, c);
    } else if s.current.Some? && Loses(s, e, s.current.value) {
      LostHasNoFlight(k, s, e);
    } else {
      OtherEventsKeepConnection(k, s, e);
    }
  }

  /** The connection's own registration has been answered, and its continuation runs. */
  predicate Registers(s: State, e: Event, c: Conn) {
    && s.current == Some(c)
    && e.EContinue? && e.resolved && e.promise in s.registering && s.registering[e.promise] == c
  }

  lemma StepReady(k: Config, s: State, e: Event, c: Conn)
    requires Valid(k, s)
    ensures Step(k, s, e).ready && Step(k, s, e).current == Some(c) <==>
            Registers(s, e, c) || (s.ready && s.current == Some(c) && !Loses(s, e, c))
  {
    if s.current.Some? && Loses(s, e, s.current.value) { LostHasNoFlight(k, s, e); }
  }

  // ----- Runs -----

  lemma {:induction false} PrefixRuns(k: Config, es: seq<Event>, n: nat)
    requires IsRun(k, es) && n <= |es|
    ensures IsRun(k, es[..n]) && (n < |es| ==> Enabled(After(k, es[..n]), es[n]))
    decreases |es|
  {
    if n == |es| {
      assert es[..n] == es;
    } else if n == |es| - 1 {
      assert es[..n] == es[..|es| - 1];
    } else {
      var before := es[..|es| - 1];
      PrefixRuns(k, before, n);
      assert before[..n] == es[..n] && before[n] == es[n];
    }
  }

  /** Where a run stands after n of its events. */
  lemma PrefixIsRun(k: Config, es: seq<Event>, n: nat)
    requires IsRun(k, es) && n <= |es|
    ensures IsRun(k, es[..n]) && Valid(k, After(k, es[..n]))
    ensures n < |es| ==> Enabled(After(k, es[..n]), es[n])
    ensures n < |es| ==> After(k, es[..n + 1]) == Step(k, After(k, es[..n]), es[n])
  {
    PrefixRuns(k, es, n);
    RunKeepsValid(k, es[..n]);
    if n < |es| { assert es[..n + 1][..n] == es[..n]; }
  }

  ghost predicate HasAt(k: Config, es: seq<Event>, n: nat, p: nat, o: Outcome) {
    n <= |es| && Has(After(k, es[..n]), p, o)
  }

  ghost predicate SettledAt(k: Config, es: seq<Event>, n: nat, p: nat, o: Outcome) {
    n < |es| && Settles(After(k, es[..n]), es[n], p, o)
  }

  lemma OutcomeStep(k: Config, es: seq<Event>, n: nat, p: nat, o: Outcome)
    requires IsRun(k, es) && n < |es|
    ensures HasAt(k, es, n + 1, p, o) <==> SettledAt(k, es, n, p, o) || HasAt(k, es, n, p, o)
  {
    PrefixIsRun(k, es, n);
    StepSettles(k, After(k, es[..n]), es[n], p, o);
  }

  /**
   * A promise has an outcome after a run exactly when one of its events was the cause of that very
   * outcome: a frame without error that carries its request's id on its own connection while it was in
   * flight; one with an error; the timeout of that id; a send that threw; the loss or the stop of its
   * connection while it was in flight; a request made while there was no registered, open connection.
   */
  lemma OutcomeIff(k: Config, es: seq<Event>, p: nat, o: Outcome)
    requires IsRun(k, es)
    ensures (p, o) in After(k, es).outcomes <==> exists n: nat :: SettledAt(k, es, n, p, o)
  {
    var holds := (n: nat) => HasAt(k, es, n, p, o);
    var sets, keeps := (n: nat) => SettledAt(k, es, n, p, o), (n: nat) => true;
    forall n: nat | n < |es| ensures IsStep(holds, sets, keeps, n) { OutcomeStep(k, es, n, p, o); }
    HoldsIffSince(holds, sets, keeps, |es|);
    assert es[..|es|] == es && holds(|es|) == HasAt(k, es, |es|, p, o);
    if n: nat :| SettledAt(k, es, n, p, o) { assert SetAndKept(sets, keeps, n, |es|); }
  }

  ghost predicate FliesAt(k: Config, es: seq<Event>, n: nat, id: string, g: nat, p: nat) {
    n <= |es| && IsInFlight(After(k, es[..n]), id, g, p)
  }

  ghost predicate LaunchedAt(k: Config, es: seq<Event>, n: nat, id: string, g: nat, p: nat) {
    n < |es| && LaunchesOn(After(k, es[..n]), es[n], id, g, p)
  }

  ghost predicate StaysUpAt(k: Config, es: seq<Event>, n: nat, p: nat) {
    n < |es| && !Lands(After(k, es[..n]), es[n], p)
  }

  lemma FlightStep(k: Config, es: seq<Event>, n: nat, id: string, g: nat, p: nat)
    requires IsRun(k, es) && n < |es|
    ensures FliesAt(k, es, n + 1, id, g, p) <==>
            LaunchedAt(k, es, n, id, g, p) || (FliesAt(k, es, n, id, g, p) && StaysUpAt(k, es, n, p))
  {
    PrefixIsRun(k, es, n);
    StepFlight(k, After(k, es[..n]), es[n], id, g, p);
  }

  /**
   * A request is in flight exactly when it went out, under its id and on the connection of its
   * generation, and has since been neither answered nor timed out nor given up with its connection.
   */
  lemma FlightIff(k: Config, es: seq<Event>, id: string, g: nat, p: nat)
    requires IsRun(k, es)
    ensures IsInFlight(After(k, es), id, g, p) <==>
            Since((n: nat) => LaunchedAt(k, es, n, id, g, p), (n: nat) => StaysUpAt(k, es, n, p), |es|)
  {
    FlightSince(k, es, |es|, id, g, p);
    assert es[..|es|] == es;
  }

  lemma FlightSince(k: Config, es: seq<Event>, j: nat, id: string, g: nat, p: nat)
    requires IsRun(k, es) && j <= |es|
    ensures FliesAt(k, es, j, id, g, p) <==>
            Since((n: nat) => LaunchedAt(k, es, n, id, g, p), (n: nat) => StaysUpAt(k, es, n, p), j)
  {
    var holds := (n: nat) => FliesAt(k, es, n, id, g, p);
    var sets, keeps := (n: nat) => LaunchedAt(k, es, n, id, g, p), (n: nat) => StaysUpAt(k, es, n, p);
    forall n: nat | n < j ensures IsStep(holds, sets, keeps, n) { FlightStep(k, es, n, id, g, p); }
    HoldsIffSince(holds, sets, keeps, j);
    assert holds(j) == FliesAt(k, es, j, id, g, p);
  }

  ghost predicate IsCurrentAt(k: Config, es: seq<Event>, n: nat, c: Conn) {
    n <= |es| && After(k, es[..n]).current == Some(c)
  }

  ghost predicate MadeAt(k: Config, es: seq<Event>, n: nat, c: Conn) {
    n < |es| && Makes(After(k, es[..n]), es[n], c)
  }

  ghost predicate KeptAt(k: Config, es: seq<Event>, n: nat, c: Conn) {
    n < |es| && !Loses(After(k, es[..n]), es[n], c)
  }

  lemma ConnectionStep(k: Config, es: seq<Event>, n: nat, c: Conn)
    requires IsRun(k, es) && n < |es|
    ensures IsCurrentAt(k, es, n + 1, c) <==> MadeAt(k, es, n, c) || (IsCurrentAt(k, es, n, c) && KeptAt(k, es, n, c))
  {
    PrefixIsRun(k, es, n);
    StepConnection(k, After(k, es[..n]), es[n], c);
  }

  /** The present connection is the one the last start or reconnect made, until it closes, is refused or stopped. */
  lemma ConnectionIff(k: Config, es: seq<Event>, c: Conn)
    requires IsRun(k, es)
    ensures After(k, es).current == Some(c) <==>
            Since((n: nat) => MadeAt(k, es, n, c), (n: nat) => KeptAt(k, es, n, c), |es|)
  {
    var holds := (n: nat) => IsCurrentAt(k, es, n, c);
    var sets, keeps := (n: nat) => MadeAt(k, es, n, c), (n: nat) => KeptAt(k, es, n, c);
    forall n: nat | n < |es| ensures IsStep(holds, sets, keeps, n) { ConnectionStep(k, es, n, c); }
    HoldsIffSince(holds, sets, keeps, |es|);
    assert es[..|es|] == es && holds(|es|) == IsCurrentAt(k, es, |es|, c);
  }

  ghost predicate IsReadyAt(k: Config, es: seq<Event>, n: nat, c: Conn) {
    n <= |es| && After(k, es[..n]).ready && After(k, es[..n]).current == Some(c)
  }

  ghost predicate RegisteredAt(k: Config, es: seq<Event>, n: nat, c: Conn) {
    n < |es| && Registers(After(k, es[..n]), es[n], c)
  }

  lemma ReadyStep(k: Config, es: seq<Event>, n: nat, c: Conn)
    requires IsRun(k, es) && n < |es|
    ensures IsReadyAt(k, es, n + 1, c) <==>
            RegisteredAt(k, es, n, c) || (IsReadyAt(k, es, n, c) && KeptAt(k, es, n, c))
  {
    PrefixIsRun(k, es, n);
    StepReady(k, After(k, es[..n]), es[n], c);
  }

  /** The object is ready on a connection exactly since its registration went through, until it is given up. */
  lemma ReadyIff(k: Config, es: seq<Event>, c: Conn)
    requires IsRun(k, es)
    ensures After(k, es).ready && After(k, es).current == Some(c) <==>
            Since((n: nat) => RegisteredAt(k, es, n, c), (n: nat) => KeptAt(k, es, n, c), |es|)
  {
    var holds := (n: nat) => IsReadyAt(k, es, n, c);
    var sets, keeps := (n: nat) => RegisteredAt(k, es, n, c), (n: nat) => KeptAt(k, es, n, c);
    forall n: nat | n < |es| ensures IsStep(holds, sets, keeps, n) { ReadyStep(k, es, n, c); }
    HoldsIffSince(holds, sets, keeps, |es|);
    assert es[..|es|] == es && holds(|es|) == IsReadyAt(k, es, |es|, c);
  }

  // ----- What being ready takes -----

  ghost predicate AwaitsAt(k: Config, es: seq<Event>, n: nat, p: nat, c: Conn) {
    n <= |es| && p in After(k, es[..n]).registering && After(k, es[..n]).registering[p] == c
  }

  /** The present connection opens, and its registration is promise p. */
  ghost predicate OpensAt(k: Config, es: seq<Event>, n: nat, p: nat, c: Conn) {
    && n < |es| && es[n].EOpen? && es[n].c == c
    && After(k, es[..n]).current == Some(c) && p == After(k, es[..n]).handed
  }

  ghost predicate StillAwaitsAt(es: seq<Event>, n: nat, p: nat) {
    n < |es| && (es[n].EContinue? ==> es[n].promise != p)
  }

  lemma LoseLeaves(k: Config, s: State, c: Conn)
    ensures var t := Lose(k, s, c);
      t.registering == s.registering && t.handed == s.handed && t.generation == s.generation
  {
  }

  lemma RequestOnLeaves(s: State, c: Conn, open: bool, sendThrows: bool)
    ensures var t := RequestOn(s, c, open, sendThrows);
      t.registering == s.registering && t.handed == s.handed + 1 && t.generation == s.generation
  {
  }

  lemma ConnectLeaves(k: Config, s: State, created: Option<nat>)
    ensures var t := Connect(k, s, created);
      t.registering == s.registering && t.handed == s.handed && t.generation >= s.generation
  {
  }

  /** What every event but the opening of a connection and a continuation leaves as it is. */
  lemma OtherEventsLeave(k: Config, s: State, e: Event)
    requires !e.EContinue? && !e.EOpen?
    ensures var t := Step(k, s, e);
      && t.registering == s.registering && t.generation >= s.generation
      && t.handed == s.handed + if e.ERequest? then 1 else 0
  {
    match e {
      case EStart(created) => ConnectLeaves(k, s.(stopped := false, started := true), created);
      case ETimer(created) => ConnectLeaves(k, s.(timer := None), created);
      case EClose(c) => LoseLeaves(k, s, c);
      case _ => CallsAndFramesLeave(k, s, e);
    }
  }

  lemma CallsAndFramesLeave(k: Config, s: State, e: Event)
    requires e.EStop? || e.ERequest? || e.EMessage? || e.EError? || e.ERpcTimeout?
    ensures var t := Step(k, s, e);
      && t.registering == s.registering && t.generation == s.generation
      && t.handed == s.handed + if e.ERequest? then 1 else 0
  {
    match e {
      case ERequest(open, sendThrows) => RequestLeaves(s, open, sendThrows);
      case EMessage(c, frame) => AnswerLeaves(s, c, frame);
      case _ =>
    }
  }

  lemma RequestLeaves(s: State, open: bool, sendThrows: bool)
    ensures var t := Request(s, open, sendThrows);
      t.registering == s.registering && t.handed == s.handed + 1 && t.generation == s.generation
  {
    if s.ready && s.current.Some? { RequestOnLeaves(s, s.current.value, open, sendThrows); }
  }

  lemma AnswerLeaves(s: State, c: Conn, frame: Incoming)
    ensures var t := Answered(s, c, frame);
      t.registering == s.registering && t.handed == s.handed && t.generation == s.generation
  {
  }

  lemma ContinuingLeaves(k: Config, s: State, p: nat, resolved: bool)
    ensures var t := Continue(k, s, p, resolved);
      t.registering == s.registering - {p} && t.handed == s.handed && t.generation == s.generation
  {
    if p in s.registering {
      LoseLeaves(k, s.(registering := s.registering - {p}), s.registering[p]);
    } else {
      assert s.registering - {p} == s.registering;
    }
  }

  lemma StepAwaits(k: Config, s: State, e: Event, p: nat, c: Conn)
    ensures p in Step(k, s, e).registering && Step(k, s, e).registering[p] == c <==>
      || (e.EOpen? && e.c == c && s.current == Some(c) && p == s.handed)
      || (p in s.registering && s.registering[p] == c && !(e.EContinue? && e.promise == p)
          && !(e.EOpen? && s.current == Some(e.c) && p == s.handed))
  {
    if e.EOpen? {
      RequestOnLeaves(s, e.c, e.open, e.sendThrows);
    } else if e.EContinue? {
      ContinuingLeaves(k, s, e.promise, e.resolved);
    } else {
      OtherEventsLeave(k, s, e);
    }
  }

  lemma AwaitsStep(k: Config, es: seq<Event>, n: nat, p: nat, c: Conn)
    requires IsRun(k, es) && n < |es|
    ensures AwaitsAt(k, es, n + 1, p, c) <==>
            OpensAt(k, es, n, p, c) || (AwaitsAt(k, es, n, p, c) && StillAwaitsAt(es, n, p))
  {
    PrefixIsRun(k, es, n);
    StepAwaits(k, After(k, es[..n]), es[n], p, c);
  }

  lemma AwaitsSince(k: Config, es: seq<Event>, m: nat, p: nat, c: Conn)
    requires IsRun(k, es) && m <= |es|
    ensures AwaitsAt(k, es, m, p, c) <==>
            Since((n: nat) => OpensAt(k, es, n, p, c), (n: nat) => StillAwaitsAt(es, n, p), m)
  {
    var holds := (n: nat) => AwaitsAt(k, es, n, p, c);
    var sets, keeps := (n: nat) => OpensAt(k, es, n, p, c), (n: nat) => StillAwaitsAt(es, n, p);
    forall n: nat | n < m ensures IsStep(holds, sets, keeps, n) { AwaitsStep(k, es, n, p, c); }
    HoldsIffSince(holds, sets, keeps, m);
    assert holds(m) == AwaitsAt(k, es, m, p, c);
  }

  lemma StepGrows(k: Config, s: State, e: Event)
    ensures Step(k, s, e).generation >= s.generation
    ensures e.EOpen? && s.current == Some(e.c) ==> Step(k, s, e).handed == s.handed + 1
    ensures s.current.Some? && Sends(s, e, s.current.value) ==> Step(k, s, e).handed == s.handed + 1
  {
    if e.EOpen? {
      RequestOnLeaves(s, e.c, e.open, e.sendThrows);
    } else if e.EContinue? {
      ContinuingLeaves(k, s, e.promise, e.resolved);
    } else {
      OtherEventsLeave(k, s, e);
    }
  }

  lemma {:induction false} NumbersGrow(k: Config, es: seq<Event>, a: nat, b: nat)
    requires IsRun(k, es) && a <= b <= |es|
    ensures After(k, es[..a]).handed <= After(k, es[..b]).handed
    ensures After(k, es[..a]).generation <= After(k, es[..b]).generation
    decreases b
  {
    if a < b {
      NumbersGrow(k, es, a, b - 1);
      PrefixIsRun(k, es, b - 1);
      StepGrows(k, After(k, es[..b - 1]), es[b - 1]);
      SettlementsAreFinal(k, After(k, es[..b - 1]), es[b - 1]);
    }
  }

  /** Newer connections than this one have been made, or this one has been and is no longer. */
  ghost predicate IsGoneAt(k: Config, es: seq<Event>, n: nat, c: Conn) {
    n <= |es| && After(k, es[..n]).current != Some(c) && After(k, es[..n]).generation >= c.generation
  }

  lemma GoneStaysGone(k: Config, s: State, e: Event, c: Conn)
    requires Valid(k, s) && s.current != Some(c) && s.generation >= c.generation
    ensures Step(k, s, e).current != Some(c) && Step(k, s, e).generation >= c.generation
  {
    StepConnection(k, s, e, c);
    StepGrows(k, s, e);
  }

  /** A connection once given up never comes back. */
  lemma {:induction false} LostForGood(k: Config, es: seq<Event>, a: nat, b: nat, c: Conn)
    requires IsRun(k, es) && a <= b <= |es| && IsGoneAt(k, es, a, c)
    ensures IsGoneAt(k, es, b, c)
    decreases b
  {
    if a < b {
      LostForGood(k, es, a, b - 1, c);
      PrefixIsRun(k, es, b - 1);
      GoneStaysGone(k, After(k, es[..b - 1]), es[b - 1], c);
    }
  }

  /** So between two moments at which it is the present one it has been so throughout. */
  lemma StaysBetween(k: Config, es: seq<Event>, a: nat, j: nat, b: nat, c: Conn)
    requires IsRun(k, es) && a <= j <= b <= |es|
    requires After(k, es[..a]).current == Some(c) && After(k, es[..b]).current == Some(c)
    ensures After(k, es[..j]).current == Some(c)
  {
    PrefixIsRun(k, es, a);
    NumbersGrow(k, es, a, j);
    if After(k, es[..j]).current != Some(c) {
      assert IsGoneAt(k, es, j, c);
      LostForGood(k, es, j, b, c);
    }
  }

  lemma PromiseIsHandedOnce(k: Config, es: seq<Event>, i: nat, n: nat, id: string, g: nat, p: nat, c: Conn)
    requires IsRun(k, es) && OpensAt(k, es, i, p, c) && LaunchedAt(k, es, n, id, g, p)
    ensures n == i
  {
    PrefixIsRun(k, es, i);
    PrefixIsRun(k, es, n);
    StepGrows(k, After(k, es[..i]), es[i]);
    StepGrows(k, After(k, es[..n]), es[n]);
    if i < n { NumbersGrow(k, es, i + 1, n); }
    if n < i { NumbersGrow(k, es, n + 1, i); }
  }

  lemma RegistrationOpened(k: Config, es: seq<Event>, m: nat, p: nat, c: Conn) returns (i: nat)
    requires IsRun(k, es) && m <= |es| && AwaitsAt(k, es, m, p, c)
    ensures i < m && OpensAt(k, es, i, p, c)
  {
    AwaitsSince(k, es, m, p, c);
    var opens, stays := (n: nat) => OpensAt(k, es, n, p, c), (n: nat) => StillAwaitsAt(es, n, p);
    assert Since(opens, stays, m);
    i :| SetAndKept(opens, stays, i, m);
    assert opens(i) == OpensAt(k, es, i, p, c);
  }

  lemma RegistrationAnswered(k: Config, es: seq<Event>, m: nat, p: nat) returns (j: nat)
    requires IsRun(k, es) && m <= |es| && Has(After(k, es[..m]), p, Resolved)
    ensures j < m && SettledAt(k, es, j, p, Resolved)
  {
    PrefixIsRun(k, es, m);
    OutcomeIff(k, es[..m], p, Resolved);
    j :| SettledAt(k, es[..m], j, p, Resolved);
    assert es[..m][..j] == es[..j];
  }

  lemma FlightLaunched(k: Config, es: seq<Event>, j: nat, id: string, g: nat, p: nat) returns (n: nat)
    requires IsRun(k, es) && j <= |es| && FliesAt(k, es, j, id, g, p)
    ensures n < j && LaunchedAt(k, es, n, id, g, p)
  {
    FlightSince(k, es, j, id, g, p);
    var launched, stays := (n: nat) => LaunchedAt(k, es, n, id, g, p), (n: nat) => StaysUpAt(k, es, n, p);
    assert Since(launched, stays, j);
    n :| SetAndKept(launched, stays, n, j);
    assert launched(n) == LaunchedAt(k, es, n, id, g, p);
  }

  lemma ReadyRegistered(k: Config, es: seq<Event>, c: Conn) returns (m: nat)
    requires IsRun(k, es) && After(k, es).ready && After(k, es).current == Some(c)
    ensures RegisteredAt(k, es, m, c) && forall n: nat :: m < n < |es| ==> KeptAt(k, es, n, c)
  {
    ReadyIff(k, es, c);
    var registered, kept := (n: nat) => RegisteredAt(k, es, n, c), (n: nat) => KeptAt(k, es, n, c);
    assert Since(registered, kept, |es|);
    m :| SetAndKept(registered, kept, m, |es|);
    assert RegisteredAt(k, es, m, c) && forall n: nat :: m < n < |es| ==> kept(n) == KeptAt(k, es, n, c);
  }

  /** The connection was still the present one when the answer came. */
  lemma AnsweredWhilePresent(k: Config, es: seq<Event>, i: nat, j: nat, m: nat, p: nat, c: Conn)
    requires IsRun(k, es) && i < j < m < |es| && OpensAt(k, es, i, p, c) && RegisteredAt(k, es, m, c)
    requires SettledAt(k, es, j, p, Resolved)
    ensures es[j] == EMessage(c, Answer(es[j].frame.id, false))
  {
    StaysBetween(k, es, i, j, m, c);
  }

  /** What goes before the continuation of a registration that went through. */
  lemma RegistrationWasAnswered(k: Config, es: seq<Event>, m: nat, p: nat, c: Conn) returns (i: nat, j: nat, n: nat)
    requires IsRun(k, es) && RegisteredAt(k, es, m, c) && p == es[m].promise
    ensures i < m && OpensAt(k, es, i, p, c) && n < j < m && SettledAt(k, es, j, p, Resolved)
    ensures LaunchedAt(k, es, n, es[j].frame.id, es[j].c.generation, p)
  {
    PrefixIsRun(k, es, m);
    i := RegistrationOpened(k, es, m, p, c);
    j := RegistrationAnswered(k, es, m, p);
    n := FlightLaunched(k, es, j, es[j].frame.id, es[j].c.generation, p);
  }

  /**
   * Ready on a connection, the object has sent its registration when the connection opened, has had a
   * frame without error for that very request on that very connection, and has then come to the
   * continuation; the connection has not been given up since.
   */
  lemma ReadyTakesAnAnswer(k: Config, es: seq<Event>, c: Conn)
    returns (p: nat, id: string, i: nat, j: nat, m: nat)
    requires IsRun(k, es) && After(k, es).ready && After(k, es).current == Some(c)
    ensures i < j < m < |es| && OpensAt(k, es, i, p, c) && LaunchedAt(k, es, i, id, c.generation, p)
    ensures es[j] == EMessage(c, Answer(id, false)) && es[m] == EContinue(p, true)
    ensures forall n: nat :: m < n < |es| ==> KeptAt(k, es, n, c)
  {
    m := ReadyRegistered(k, es, c);
    p := es[m].promise;
    var n;
    i, j, n := RegistrationWasAnswered(k, es, m, p, c);
    id := es[j].frame.id;
    PromiseIsHandedOnce(k, es, i, n, id, es[j].c.generation, p, c);
    AnsweredWhilePresent(k, es, i, j, m, p, c);
  }
}
