/** packages/self-reminder/src/lifecycle.ts: the object itself, proved against the steps of Lifecycle.dfy. */
module LifecycleObject {
  import opened Wrappers
  import opened Lifecycle
  import L = Lifecycle

  class HubLifecycle {
    const config: Config
    var generation: nat
    var current: Option<Conn>
    var reconnectTimer: Option<nat>
    var reconnectAttempt: nat
    var ready: bool
    var stopped: bool
    var sequence: nat
    var pending: map<string, Pending>
    var registering: map<nat, Conn>
    var handed: nat
    ghost var started: bool
    ghost var outcomes: multiset<(nat, Outcome)>
    ghost var connects: map<nat, nat>
    ghost var issued: seq<string>
    ghost var delays: seq<nat>

    ghost function Now(): State
      reads this
    {
      State(generation, current, reconnectTimer, reconnectAttempt, ready, stopped, sequence, pending, registering,
            started, handed, outcomes, connects, issued, delays)
    }

    constructor (config: Config)
      ensures Now() == START && this.config == config
    {
      this.config := config;
      generation, current, reconnectTimer, reconnectAttempt, ready, stopped := 0, None, None, 0, false, false;
      sequence, pending, registering, handed := 0, map[], map[], 0;
      started, outcomes, connects, issued, delays := false, multiset{}, map[], [], [];
    }

    method Start(created: Option<nat>)
      modifies this
      ensures Now() == L.Start(config, old(Now()), created)
    {
      stopped := false;
      started := true;
      Connect(created);
    }

    method Connect(created: Option<nat>)
      modifies this
      ensures Now() == L.Connect(config, old(Now()), created)
    {
      if stopped || current.Some? || reconnectTimer.Some? {
        return;
      }
      generation := generation + 1;
      if created.None? {
        ScheduleReconnect();
        return;
      }
      current := Some(Conn(generation, created.value));
      ready := false;
    }

    method ScheduleReconnect()
      modifies this
      ensures Now() == L.ScheduleReconnect(config, old(Now()))
    {
      if stopped || reconnectTimer.Some? {
        return;
      }
      var delay := Delay(config, reconnectAttempt);
      reconnectAttempt := reconnectAttempt + 1;
      delays := delays + [delay];
      reconnectTimer := Some(delay);
    }

    /** `for (const [id, pending] of this.pending)`, deleting and rejecting as it goes. */
    method RejectGeneration(g: nat)
      requires Accounted(handed, outcomes, pending)
      modifies this`pending, this`outcomes
      ensures Now() == L.RejectGeneration(old(Now()), g)
    {
      ghost var pending0, outcomes0 := pending, outcomes;
      ghost var rejected: set<string> := {};
      var left := pending.Keys;
      while left != {}
        invariant left <= pending.Keys && IsRejectedSoFar(pending0, left, rejected, g)
        invariant pending == pending0 - rejected
        invariant outcomes == outcomes0 + multiset(Rejections(pending0, rejected))
        decreases left
      {
        var id :| id in left;
        if pending[id].generation == g {
          OneMoreRejected(pending0, rejected, id);
          outcomes := outcomes + multiset{(pending[id].promise, GenerationRejected)};
          LessOneMore(pending0, rejected, id);
          pending := pending - {id};
          rejected := rejected + {id};
        }
        left := left - {id};
      }
      AllOfGenerationRejected(pending0, rejected, g);
    }

    method Stop()
      requires Valid(config, Now())
      modifies this
      ensures Now() == L.Stop(old(Now()))
    {
      stopped := true;
      reconnectTimer := None;
      var was := current;
      current := None;
      ready := false;
      if was.Some? {
        RejectGeneration(was.value.generation);
      }
    }

    /** What `handleClose` and `rejectAndReconnect` share. */
    method Lose(c: Conn)
      requires Valid(config, Now())
      modifies this
      ensures Now() == L.Lose(config, old(Now()), c)
    {
      current := None;
      ready := false;
      RejectGeneration(c.generation);
      ScheduleReconnect();
    }

    /** `Promise.reject(...)`. */
    method RejectNow() returns (promise: nat)
      modifies this`handed, this`outcomes
      ensures Now() == Settle(old(Now()).(handed := old(handed) + 1), old(handed), NotOpen) && promise == old(handed)
    {
      promise := handed;
      handed := handed + 1;
      outcomes := outcomes + multiset{(promise, NotOpen)};
    }

    method RequestOn(c: Conn, open: bool, sendThrows: bool) returns (promise: nat)
      modifies this
      ensures Now() == L.RequestOn(old(Now()), c, open, sendThrows) && promise == old(handed)
    {
      if current != Some(c) || !open {
        promise := RejectNow();
      } else {
        promise := Send(c, sendThrows);
      }
    }

    /** The next promise, and the id its request goes out under. */
    method Issue(c: Conn) returns (promise: nat, id: string)
      modifies this`handed, this`sequence, this`issued
      ensures promise == old(handed) && id == RequestId(c.generation, old(sequence) + 1)
      ensures Now() == old(Now()).(handed := old(handed) + 1, sequence := old(sequence) + 1,
                                   issued := old(issued) + [id])
    {
      promise := handed;
      handed := handed + 1;
      sequence := sequence + 1;
      id := RequestId(c.generation, sequence);
      issued := issued + [id];
    }

    /** The body of the promise `requestOn` makes. */
    method Send(c: Conn, sendThrows: bool) returns (promise: nat)
      requires current == Some(c)
      modifies this
      ensures Now() == L.RequestOn(old(Now()), c, true, sendThrows) && promise == old(handed)
    {
      var id;
      promise, id := Issue(c);
      if sendThrows {
        outcomes := outcomes + multiset{(promise, SendFailed)};
      } else {
        pending := pending[id := Pending(c.generation, promise)];
      }
    }

    method Request(open: bool, sendThrows: bool) returns (promise: nat)
      modifies this
      ensures Now() == L.Request(old(Now()), open, sendThrows) && promise == old(handed)
    {
      if !ready || current.None? {
        promise := RejectNow();
      } else {
        promise := RequestOn(current.value, open, sendThrows);
      }
    }

    method HandleOpen(c: Conn, open: bool, sendThrows: bool)
      modifies this
      ensures Now() == Opened(old(Now()), c, open, sendThrows)
    {
      if current != Some(c) {
        return;
      }
      var promise := RequestOn(c, open, sendThrows);
      registering := registering[promise := c];
      connects := connects[promise := c.generation];
    }

    method HandleMessage(c: Conn, frame: Incoming)
      modifies this
      ensures Now() == Answered(old(Now()), c, frame)
      ensures old(current) == Some(c) && frame.Answer? && frame.id in old(pending)
              && old(pending)[frame.id].generation == c.generation ==>
                outcomes == old(outcomes)
                  + multiset{(old(pending)[frame.id].promise, if frame.isError then Refused else Resolved)}
    {
      if current != Some(c) || !frame.Answer? {
        return;
      }
      if frame.id !in pending || pending[frame.id].generation != c.generation {
        return;
      }
      var promise := pending[frame.id].promise;
      pending := pending - {frame.id};
      outcomes := outcomes + multiset{(promise, if frame.isError then Refused else Resolved)};
    }

    method HandleClose(c: Conn)
      requires Valid(config, Now())
      modifies this
      ensures Now() == Closed(config, old(Now()), c)
    {
      if current != Some(c) {
        return;
      }
      Lose(c);
    }

    method RpcTimeout(id: string)
      modifies this
      ensures Now() == Expired(old(Now()), id)
    {
      if id !in pending {
        return;
      }
      outcomes := outcomes + multiset{(pending[id].promise, TimedOut)};
      pending := pending - {id};
    }

    method ReconnectTimer(created: Option<nat>)
      requires reconnectTimer.Some?
      modifies this
      ensures Now() == TimerFired(config, old(Now()), created)
    {
      reconnectTimer := None;
      Connect(created);
    }

    /** What follows the `await` in `register`. */
    method AfterRegister(promise: nat, resolved: bool)
      requires Valid(config, Now()) && promise in registering
      modifies this
      ensures Now() == Continue(config, old(Now()), promise, resolved)
    {
      var c := registering[promise];
      registering := registering - {promise};
      if current != Some(c) {
        return;
      }
      if resolved {
        ready := true;
        reconnectAttempt := 0;
        delays := [];
      } else {
        Lose(c);
      }
    }
  }

  function Rejections(pending: map<string, Pending>, ids: set<string>): set<(nat, Outcome)>
    requires ids <= pending.Keys
  {
    set i | i in ids :: (pending[i].promise, GenerationRejected)
  }

  /** The entries of generation g that the loop has come past. */
  ghost predicate IsRejectedSoFar(pending: map<string, Pending>, left: set<string>, rejected: set<string>, g: nat) {
    && rejected <= pending.Keys
    && forall id :: id in rejected <==> id in pending && id !in left && pending[id].generation == g
  }

  lemma LessOneMore(pending: map<string, Pending>, rejected: set<string>, id: string)
    ensures pending - (rejected + {id}) == pending - rejected - {id}
  {
  }

  lemma OneMoreRejected(pending: map<string, Pending>, rejected: set<string>, id: string)
    requires id in pending && id !in rejected && rejected <= pending.Keys
    requires forall id, jd :: id in pending && jd in pending && id != jd ==> pending[id].promise != pending[jd].promise
    ensures multiset(Rejections(pending, rejected + {id}))
         == multiset(Rejections(pending, rejected)) + multiset{(pending[id].promise, GenerationRejected)}
  {
    var x := (pending[id].promise, GenerationRejected);
    assert x !in Rejections(pending, rejected);
    assert Rejections(pending, rejected + {id}) == Rejections(pending, rejected) + {x};
  }

  lemma AllOfGenerationRejected(pending: map<string, Pending>, rejected: set<string>, g: nat)
    requires rejected == set id | id in pending && pending[id].generation == g
    ensures pending - rejected == map id | id in pending && pending[id].generation != g :: pending[id]
    ensures Rejections(pending, rejected)
         == set id | id in pending && pending[id].generation == g :: (pending[id].promise, GenerationRejected)
  {
  }
}
