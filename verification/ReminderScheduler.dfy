/**
 * packages/self-reminder/src/scheduler.ts and the hub's side of a send as objects. Each statement
 * takes one step of the protocol of Reminders.dfy, so whatever the objects do is a run of it.
 */
module ReminderScheduler {
  import opened Wrappers
  import opened Reminders
  import opened ReminderRuns
  import opened ReminderSafety

  /** What became of a send. */
  datatype Fate = NotSent | RequestLost | Refused | AnswerLost | Answered

  predicate Reaches(fate: Fate) { fate.AnswerLost? || fate.Answered? }

  /** Whether the hub came to store the fire, and whether the scheduler got to know it had. */
  predicate Stored(receipts: map<FireKey, Request>, r: Request, fate: Fate) { Reaches(fate) && r.key !in receipts }

  predicate Confirmed(receipts: map<FireKey, Request>, r: Request, fate: Fate) {
    fate.Answered? && Answer(receipts, r).Ok?
  }

  /** `nextFire`; `cron` is what the cron library finds. */
  function NextOf(kind: Kind, slot: int, now: int, cron: Option<int>): Option<int> {
    match kind
    case Once => None
    case Interval(period) => if period > 0 then Some(NextInterval(slot, period, now)) else None
    case Cron => cron
  }

  /** What a scan makes of one due row: it moves on exactly if it is not held and its fire is confirmed. */
  function RowAfter(holdMs: int, row: Row, decisions: map<FireKey, Decision>, receipts: map<FireKey, Request>,
                    d: Due, now: int, fate: Fate, cron: Option<int>): Row {
    if !ShouldHold(holdMs, decisions, d, now) && Confirmed(receipts, RequestOf(d, now), fate)
    then Advanced(row, NextOf(d.kind, d.slot, now, cron))
    else row
  }

  predicate Stores(holdMs: int, decisions: map<FireKey, Decision>, receipts: map<FireKey, Request>, d: Due, now: int,
                   fate: Fate) {
    !ShouldHold(holdMs, decisions, d, now) && Stored(receipts, RequestOf(d, now), fate)
  }

  /** The first time an undecided row is held, that is put on record. */
  function HoldsAfter(holdMs: int, decisions: map<FireKey, Decision>, holds: set<FireKey>, d: Due,
                      now: int): set<FireKey> {
    if ShouldHold(holdMs, decisions, d, now) && KeyOf(d) !in decisions then holds + {KeyOf(d)} else holds
  }

  lemma NextMayBe(kind: Kind, slot: int, now: int, cron: Option<int>)
    requires slot <= Sec(now) && (cron.Some? ==> cron.value > Sec(now))
    ensures MayBeNext(kind, slot, now, NextOf(kind, slot, now, cron))
  {
    if kind.Interval? && kind.period > 0 { NextIntervalIsLeast(slot, kind.period, now, 0); }
  }

  /** `w` is where the events lead, after all n of them. */
  ghost predicate Reached(holdMs: int, es: seq<Event>, n: nat, w: World) {
    n == |es| ==> IsRun(holdMs, EMPTY, es) && After(holdMs, EMPTY, es) == w
  }

  class Hub {
    var receipts: map<FireKey, Request>
    var messages: seq<Request>

    constructor ()
      ensures receipts == map[] && messages == []
    {
      receipts, messages := map[], [];
    }

    /** A used key is answered from its receipt; otherwise message and receipt go in together. */
    method Send(r: Request, refused: bool) returns (reply: Reply)
      modifies this
      ensures reply == (if refused then Failure else Answer(old(receipts), r))
      ensures receipts == (if refused || r.key in old(receipts) then old(receipts) else old(receipts)[r.key := r])
      ensures messages == (if refused || r.key in old(receipts) then old(messages) else old(messages) + [r])
    {
      if refused {
        return Failure;
      }
      if r.key in receipts {
        return if receipts[r.key] == r then Ok(true) else Failure;
      }
      messages := messages + [r];
      receipts := receipts[r.key := r];
      return Ok(false);
    }
  }

  class Scheduler {
    const holdMs: int
    const hub: Hub
    var rows: map<string, Row>
    var decisions: map<FireKey, Decision>
    var holds: set<FireKey>
    var ticking: bool
    ghost var world: World
    ghost var trace: seq<Event>
    ghost var used: nat

    /** The history of the object is a run of the protocol. */
    ghost predicate Traced()
      reads `world, `trace, `used
    {
      && (forall n: nat :: Reached(holdMs, trace, n, world)) && (forall rpc :: rpc in world.sent ==> rpc < used)
      && world.stranded == {}
    }

    ghost predicate Coupled()
      reads this, hub
    {
      && world.rows == rows && world.decisions == decisions && world.holds == holds
      && world.receipts == hub.receipts && world.messages == hub.messages
    }

    ghost predicate Synced()
      reads this, hub
    {
      Traced() && Coupled() && !world.daemon.Down? && (ticking <==> world.daemon.Scanning?)
    }

    /** A new system: no reminder, no message, and the daemon has just booted. */
    constructor (holdMs: int, hub: Hub)
      requires hub.receipts == map[] && hub.messages == []
      ensures Synced() && !ticking && rows == map[] && this.holdMs == holdMs && this.hub == hub
    {
      this.holdMs, this.hub := holdMs, hub;
      rows, decisions, holds, ticking := map[], map[], {}, false;
      world, trace, used := EMPTY, [], 0;
      new;
      assert Recovered(map[]) == map[];
      TakeAct(Boot);
    }

    ghost method TakeAround(x: Elsewhere)
      requires Traced() && MayHappen(world, x)
      modifies `world, `trace
      ensures Traced() && world == Happened(old(world), x) && trace == old(trace) + [Around(x)]
    {
      assert Reached(holdMs, trace, |trace|, world);
      OneMore(holdMs, trace, Around(x), world);
      HappeningsNoteNothing(world, x);
      world, trace := Happened(world, x), trace + [Around(x)];
    }

    ghost method TakeHandling(rpc: nat, refused: bool)
      requires Traced() && rpc in world.wire
      modifies `world, `trace
      ensures Traced() && world == Handled(old(world), rpc, refused) && old(trace) <= trace
    {
      TakeAround(HubHandles(rpc, refused));
    }

    ghost method TakeLoss(rpc: nat, ofReply: bool)
      requires Traced() && if ofReply then rpc in world.replies else rpc in world.wire
      modifies `world, `trace
      ensures Traced() && old(trace) <= trace
      ensures world == if ofReply then old(world).(replies := old(world).replies - {rpc})
                       else old(world).(wire := old(world).wire - {rpc})
    {
      TakeAround(if ofReply then LoseReply(rpc) else LoseRequest(rpc));
    }

    ghost method TakeOnRow(x: RowStep)
      requires Traced() && MayFollow(world, x) && !x.Send?
      modifies `world, `trace
      ensures Traced() && world == Followed(holdMs, old(world), x) && trace == old(trace) + [OnRow(x)]
    {
      assert Reached(holdMs, trace, |trace|, world);
      OneMore(holdMs, trace, OnRow(x), world);
      RowStepsNote(holdMs, world, x);
      world, trace := Followed(holdMs, world, x), trace + [OnRow(x)];
    }

    ghost method TakeClaim()
      requires Traced() && At(world, Choose)
      requires !ShouldHold(holdMs, world.decisions, world.daemon.due[0], world.daemon.now)
      requires world.daemon.due[0].id in world.rows && world.rows[world.daemon.due[0].id].status.Active?
      modifies `world, `trace
      ensures Traced() && old(trace) <= trace
      ensures var w, d := old(world), old(world).daemon.due[0];
        world == w.(rows := w.rows[d.id := w.rows[d.id].(status := Firing)], replayed := Noted(w, d),
                    daemon := w.daemon.(stage := Claimed))
    {
      TakeOnRow(ChooseRow);
    }

    ghost method TakeHold()
      requires Traced() && At(world, Choose)
      requires ShouldHold(holdMs, world.decisions, world.daemon.due[0], world.daemon.now)
      modifies `world, `trace
      ensures Traced() && old(trace) <= trace
      ensures var w, d := old(world), old(world).daemon.due[0];
        world == w.(holds := if KeyOf(d) in w.decisions then w.holds else w.holds + {KeyOf(d)},
                    daemon := w.daemon.(due := w.daemon.due[1..], stage := Choose))
    {
      TakeOnRow(ChooseRow);
    }

    ghost method TakeFailure()
      requires Traced() && Working(world.daemon) && (world.daemon.stage.Claimed? || world.daemon.stage.Awaiting?)
      modifies `world, `trace
      ensures Traced() && world == To(old(world), Failed) && old(trace) <= trace
    {
      TakeOnRow(if world.daemon.stage.Claimed? then SendFails else GiveUp);
    }

    ghost method TakeReceipt(reply: Reply)
      requires Traced() && Working(world.daemon) && world.daemon.stage.Awaiting?
      requires world.daemon.stage.rpc in world.replies && world.replies[world.daemon.stage.rpc] == reply
      modifies `world, `trace
      ensures Traced() && world == To(old(world), if reply.Ok? then Delivered else Failed) && old(trace) <= trace
    {
      TakeOnRow(Receive);
    }

    ghost method TakeAdvance(next: Option<int>)
      requires Traced() && At(world, Delivered) && world.daemon.due[0].id in world.rows
      requires MayBeNext(world.daemon.due[0].kind, world.daemon.due[0].slot, world.daemon.now, next)
      modifies `world, `trace
      ensures Traced() && world == Pop(Fire(old(world), old(world).daemon.due[0], next)) && old(trace) <= trace
    {
      TakeOnRow(Advance(next));
    }

    ghost method TakeReactivation()
      requires Traced() && At(world, Failed)
      modifies `world, `trace
      ensures Traced() && world == Reactivated(old(world)) && old(trace) <= trace
    {
      TakeOnRow(Reactivate);
    }

    ghost method TakeSend() returns (rpc: nat)
      requires Traced() && At(world, Claimed)
      modifies `world, `trace, `used
      ensures Traced() && world == Sent(old(world), rpc) && trace == old(trace) + [OnRow(Send(rpc))]
    {
      rpc := used;
      assert Reached(holdMs, trace, |trace|, world);
      OneMore(holdMs, trace, OnRow(Send(rpc)), world);
      world, trace, used := Sent(world, rpc), trace + [OnRow(Send(rpc))], used + 1;
    }

    ghost method TakeAct(x: DaemonStep)
      requires Traced() && MayAct(world, x) && !x.ScanThrows?
      modifies `world, `trace
      ensures Traced() && world == Acted(old(world), x) && trace == old(trace) + [OfDaemon(x)]
    {
      assert Reached(holdMs, trace, |trace|, world);
      OneMore(holdMs, trace, OfDaemon(x), world);
      world, trace := Acted(world, x), trace + [OfDaemon(x)];
    }

    // ----- One due row -----

    /** Whether the row waits for an operator; the first time it does, that is put on record. */
    method ShouldHoldOverdue(d: Due, now: int) returns (held: bool)
      modifies `holds
      ensures held == ShouldHold(holdMs, decisions, d, now)
      ensures held <==> d.kind == Once && now - d.slot * 1000 > holdMs
                        && !(FireKey(d.id, d.slot) in decisions && decisions[FireKey(d.id, d.slot)] == Replay)
      ensures holds == HoldsAfter(holdMs, decisions, old(holds), d, now)
    {
      if !d.kind.Once? || now - d.slot * 1000 <= holdMs {
        return false;
      }
      if KeyOf(d) in decisions {
        return decisions[KeyOf(d)].Skip?;
      }
      if KeyOf(d) !in holds {
        holds := holds + {KeyOf(d)};
      }
      return true;
    }

    /** The request has reached the hub. */
    method Arrive(ghost rpc: nat, r: Request, refused: bool) returns (reply: Reply)
      requires Traced() && Coupled() && rpc in world.wire && world.wire[rpc] == r
      modifies `world, `trace, hub
      ensures Traced() && Coupled() && world.daemon == old(world.daemon) && old(trace) <= trace
      ensures reply == (if refused then Failure else Answer(old(hub.receipts), r))
      ensures rpc in world.replies && world.replies[rpc] == reply
      ensures hub.receipts == (if refused || r.key in old(hub.receipts)
                               then old(hub.receipts) else old(hub.receipts)[r.key := r])
    {
      TakeHandling(rpc, refused);
      reply := hub.Send(r, refused);
    }

    /** Its answer comes back, or is lost and not waited for any longer. */
    method Await(ghost rpc: nat, reply: Reply, lost: bool) returns (confirmed: bool)
      requires Traced() && Coupled() && Working(world.daemon) && world.daemon.stage == Awaiting(rpc)
      requires rpc in world.replies && world.replies[rpc] == reply
      modifies `world, `trace
      ensures Traced() && Coupled() && confirmed == (!lost && reply.Ok?) && old(trace) <= trace
      ensures world.daemon == old(world.daemon).(stage := if confirmed then Delivered else Failed)
    {
      confirmed := !lost && reply.Ok?;
      if lost {
        TakeLoss(rpc, true);
        TakeFailure();
      } else {
        TakeReceipt(reply);
      }
    }

    /** The send as it really was: what the hub did with it, and whether its answer came back. */
    method SendReminder(d: Due, now: int, fate: Fate) returns (confirmed: bool)
      requires Traced() && Coupled() && At(world, Claimed) && world.daemon.due[0] == d && world.daemon.now == now
      modifies `world, `trace, `used, hub
      ensures Traced() && Coupled() && confirmed == Confirmed(old(hub.receipts), RequestOf(d, now), fate)
      ensures hub.receipts == (if Stored(old(hub.receipts), RequestOf(d, now), fate)
                               then old(hub.receipts)[KeyOf(d) := RequestOf(d, now)] else old(hub.receipts))
      ensures world.daemon == old(world.daemon).(stage := if confirmed then Delivered else Failed)
      ensures old(trace) <= trace
    {
      confirmed := false;
      if fate.NotSent? {
        TakeFailure();
      } else {
        ghost var rpc := TakeSend();
        if fate.RequestLost? {
          TakeLoss(rpc, false);
          TakeFailure();
        } else {
          var reply := Arrive(rpc, RequestOf(d, now), fate.Refused?);
          confirmed := Await(rpc, reply, fate.AnswerLost?);
        }
      }
    }

    /** Where a row goes after it has fired: a one-shot is done, an unreadable schedule is dead. */
    method AdvanceOrComplete(d: Due, now: int, cron: Option<int>)
      requires Traced() && Coupled() && At(world, Delivered) && world.daemon.due[0] == d && world.daemon.now == now
      requires d.slot <= Sec(now) && (cron.Some? ==> cron.value > Sec(now)) && Reads(rows, d)
      modifies `world, `trace, `rows
      ensures Traced() && Coupled()
      ensures rows == old(rows)[d.id := Advanced(old(rows)[d.id], NextOf(d.kind, d.slot, now, cron))]
      ensures world.daemon == old(world.daemon).(due := old(world.daemon.due)[1..], stage := Choose)
      ensures old(trace) <= trace
    {
      var row := rows[d.id];
      NextMayBe(d.kind, d.slot, now, cron);
      TakeAdvance(NextOf(d.kind, d.slot, now, cron));
      if d.kind.Once? {
        rows := rows[d.id := row.(status := Fired, fireCount := row.fireCount + 1, slot := None)];
        return;
      }
      var next := NextOf(d.kind, d.slot, now, cron);
      if next.None? {
        rows := rows[d.id := row.(status := Dead)];
        return;
      }
      rows := rows[d.id := row.(fireCount := row.fireCount + 1, status := Active, slot := next)];
    }

    /** After the failure of a send the row waits at the same slot. */
    method ReturnToActive(d: Due)
      requires Traced() && Coupled() && At(world, Failed) && world.daemon.due[0] == d && d.id in rows
      modifies `world, `trace, `rows
      ensures Traced() && Coupled() && rows == old(rows)[d.id := old(rows)[d.id].(status := Active)]
      ensures world.daemon == old(world.daemon).(due := old(world.daemon.due)[1..], stage := Choose)
      ensures old(trace) <= trace
    {
      TakeReactivation();
      rows := rows[d.id := rows[d.id].(status := Active)];
    }

    /** Holds or claims the row. */
    method Claim(d: Due, now: int) returns (claimed: bool)
      requires Traced() && Coupled() && At(world, Choose) && world.daemon.due[0] == d && world.daemon.now == now
      requires d.id in rows && rows[d.id].status.Active?
      modifies `world, `trace, `rows, `holds
      ensures Traced() && Coupled() && claimed == !ShouldHold(holdMs, decisions, d, now)
      ensures holds == HoldsAfter(holdMs, decisions, old(holds), d, now)
      ensures rows == (if claimed then old(rows)[d.id := old(rows)[d.id].(status := Firing)] else old(rows))
      ensures world.daemon == (if claimed then old(world.daemon).(stage := Claimed)
                               else old(world.daemon).(due := old(world.daemon.due)[1..], stage := Choose))
      ensures old(trace) <= trace
    {
      var held := ShouldHoldOverdue(d, now);
      claimed := !held;
      if held {
        TakeHold();
      } else {
        TakeClaim();
        rows := rows[d.id := rows[d.id].(status := Firing)];
      }
    }

    /** The claimed row is sent, and moves on or waits. */
    method FireClaimed(d: Due, now: int, fate: Fate, cron: Option<int>)
      requires Traced() && Coupled() && At(world, Claimed) && world.daemon.due[0] == d && world.daemon.now == now
      requires d.slot <= Sec(now) && (cron.Some? ==> cron.value > Sec(now)) && Reads(rows, d)
      modifies `world, `trace, `used, `rows, hub
      ensures Traced() && Coupled() && old(trace) <= trace
      ensures rows == old(rows)[d.id := if Confirmed(old(hub.receipts), RequestOf(d, now), fate)
                                        then Advanced(old(rows)[d.id], NextOf(d.kind, d.slot, now, cron))
                                        else old(rows)[d.id].(status := Active)]
      ensures hub.receipts == (if Stored(old(hub.receipts), RequestOf(d, now), fate)
                               then old(hub.receipts)[KeyOf(d) := RequestOf(d, now)] else old(hub.receipts))
      ensures world.daemon == old(world.daemon).(due := old(world.daemon.due)[1..], stage := Choose)
    {
      var confirmed := SendReminder(d, now, fate);
      if confirmed {
        AdvanceOrComplete(d, now, cron);
      } else {
        ReturnToActive(d);
      }
    }

    method FireOne(d: Due, now: int, fate: Fate, cron: Option<int>)
      requires Traced() && Coupled() && At(world, Choose) && world.daemon.due[0] == d && world.daemon.now == now
      requires d.slot <= Sec(now) && (cron.Some? ==> cron.value > Sec(now)) && Reads(rows, d)
      requires rows[d.id].status.Active?
      modifies this, hub
      ensures Traced() && Coupled() && decisions == old(decisions) && ticking == old(ticking)
      ensures holds == HoldsAfter(holdMs, decisions, old(holds), d, now)
      ensures rows == old(rows)[d.id := RowAfter(holdMs, old(rows)[d.id], decisions, old(hub.receipts), d, now, fate,
                                                 cron)]
      ensures hub.receipts == (if Stores(holdMs, decisions, old(hub.receipts), d, now, fate)
                               then old(hub.receipts)[KeyOf(d) := RequestOf(d, now)] else old(hub.receipts))
      ensures world.daemon == old(world.daemon).(due := old(world.daemon.due)[1..], stage := Choose)
      ensures old(trace) <= trace
    {
      ghost var was, row := rows, rows[d.id];
      var claimed := Claim(d, now);
      UpdateTwice(was, d.id, row, row);
      if claimed {
        UpdateTwice(was, d.id, row.(status := Firing), row);
        UpdateTwice(was, d.id, row.(status := Firing), Advanced(row, NextOf(d.kind, d.slot, now, cron)));
        FireClaimed(d, now, fate, cron);
      }
    }

    // ----- The scan -----

    method FireAll(due: seq<Due>, now: int, luck: seq<Luck>)
      requires Traced() && Coupled() && world.daemon == Scanning(now, due, Choose) && |luck| == |due|
      requires QueueSound(rows, due, now) && AllActive(rows, due) && CronsLater(luck, now)
      modifies this, hub
      ensures Traced() && Coupled() && world.daemon == Scanning(now, [], Choose) && decisions == old(decisions)
      ensures old(trace) <= trace && ticking == old(ticking)
      ensures RowsScanned(holdMs, old(rows), rows, decisions, old(hub.receipts), due, now, luck, |due|)
      ensures HubScanned(holdMs, decisions, old(hub.receipts), hub.receipts, due, now, luck, |due|)
      ensures HoldsScanned(holdMs, decisions, old(holds), holds, due, now, |due|)
    {
      ghost var was, receipts, held := rows, hub.receipts, holds;
      var k := 0;
      assert due[0..] == due;
      while k < |due|
        invariant 0 <= k <= |due| && Traced() && Coupled() && world.daemon == Scanning(now, due[k..], Choose)
        invariant decisions == old(decisions) && ticking == old(ticking) && old(trace) <= trace
        invariant RowsScanned(holdMs, was, rows, decisions, receipts, due, now, luck, k)
        invariant HubScanned(holdMs, decisions, receipts, hub.receipts, due, now, luck, k)
        invariant HoldsScanned(holdMs, decisions, held, holds, due, now, k)
      {
        HoldsScannedOn(holdMs, decisions, held, holds, due, now, k);
        ScannedOn(holdMs, was, rows, decisions, receipts, hub.receipts, due, now, luck, k);
        FireOne(due[k], now, luck[k].fate, luck[k].cron);
        k := k + 1;
      }
    }

    /**
     * One poll. `due` is what the due query returned, `luck` what becomes of each send. A poll
     * during another changes nothing; any other leaves no row firing, moves on exactly the rows
     * whose fire was confirmed, stores exactly the fires that reached the hub and were new, and
     * records exactly the holds nobody has decided.
     */
    method AdvanceDue(hubReady: bool, now: int, due: seq<Due>, luck: seq<Luck>)
      requires Synced() && |luck| == |due| && CronsLater(luck, now) && (!ticking ==> IsDueList(rows, now, due))
      modifies this, hub
      ensures Synced() && ticking == old(ticking) && decisions == old(decisions) && old(trace) <= trace
      ensures old(ticking) || !hubReady ==>
                rows == old(rows) && hub.receipts == old(hub.receipts) && holds == old(holds)
      ensures !ticking && hubReady ==>
                && RowsScanned(holdMs, old(rows), rows, decisions, old(hub.receipts), due, now, luck, |due|)
                && HubScanned(holdMs, decisions, old(hub.receipts), hub.receipts, due, now, luck, |due|)
                && HoldsScanned(holdMs, decisions, old(holds), holds, due, now, |due|)
      ensures !ticking && hubReady ==>
                PollIsSettled(holdMs, decisions, old(hub.receipts), hub.receipts, old(rows), rows, old(holds), holds,
                              due, now, luck)
      ensures !ticking ==> forall id :: id in rows ==> !rows[id].status.Firing?
    {
      ghost var was, receipts, held := rows, hub.receipts, holds;
      if ticking {
        TakeAct(OverlappingPoll);
        return;
      }
      TakeAct(BeginScan(now, hubReady, due));
      if hubReady && due != [] {
        ticking := true;
        DueListIsQueue(rows, now, due);
        FireAll(due, now, luck);
        TakeAct(EndScan);
        ticking := false;
      }
      if hubReady {
        DueListIsQueue(was, now, due);
        ScannedIsSettled(holdMs, decisions, receipts, hub.receipts, was, rows, held, holds, due, now, luck);
      }
      NoneFiring();
    }

    ghost method NoneFiring()
      requires Traced() && Coupled() && world.daemon.Idle?
      ensures forall id :: id in rows ==> !rows[id].status.Firing?
    {
      assert Reached(holdMs, trace, |trace|, world);
      RunKeepsValid(holdMs, EMPTY, trace);
    }

    /** The daemon dies wherever it is and comes up again. */
    method Reboot()
      requires Traced() && Coupled() && !world.daemon.Down?
      modifies this
      ensures Synced() && !ticking && rows == Recovered(old(rows)) && old(trace) <= trace
      ensures forall id :: id in rows ==> !rows[id].status.Firing?
    {
      TakeAct(Crash);
      TakeAct(Boot);
      rows := Recovered(rows);
      ticking := false;
      NoneFiring();
    }

    method Schedule(id: string, row: Row)
      requires Synced() && id !in rows && row.status.Active? && row.slot.Some? && row.fireCount == 0
      modifies this
      ensures Synced() && rows == old(rows)[id := row] && old(trace) <= trace
    {
      TakeAround(Elsewhere.Schedule(id, row));
      rows := rows[id := row];
    }

    method RecordOverdueDecision(key: FireKey, decision: Decision)
      requires Synced()
      modifies this
      ensures Synced() && decisions == old(decisions)[key := decision] && rows == old(rows) && old(trace) <= trace
    {
      TakeAround(Decide(key, decision));
      decisions := decisions[key := decision];
    }
  }

  // ----- What becomes of a due row, in its own terms -----

  /** Its fire may go out: it repeats, or is no further back than the window, or its replay has been decided. */
  ghost predicate GoesOut(holdMs: int, decisions: map<FireKey, Decision>, d: Due, now: int) {
    || d.kind != Once
    || now - d.slot * 1000 <= holdMs
    || (FireKey(d.id, d.slot) in decisions && decisions[FireKey(d.id, d.slot)] == Replay)
  }

  /** The hub said yes to it and was heard: a new fire, or the very message it has already stored. */
  ghost predicate IsAccepted(receipts: map<FireKey, Request>, d: Due, now: int, fate: Fate) {
    var key := FireKey(d.id, d.slot);
    fate == Answered && (key in receipts ==> receipts[key] == Request(key, d.agent, now))
  }

  /** The least slot after `now` on the grid of the period through the old one. */
  ghost predicate IsNextOnGrid(slot: int, period: int, now: int, next: int)
    requires period > 0
  {
    && next * 1000 > now && next > slot && (next - slot) % period == 0
    && forall k :: (slot + k * period) * 1000 > now ==> next <= slot + k * period
  }

  /** Where a row is once its fire has been accepted. */
  ghost predicate HasMovedOn(row: Row, after: Row, d: Due, now: int, cron: Option<int>) {
    && after.agent == row.agent && after.kind == row.kind
    && match d.kind
       case Once => after.status == Fired && after.slot == None && after.fireCount == row.fireCount + 1
       case Interval(period) =>
         if period <= 0 then after == row.(status := Dead)
         else && after.status == Active && after.fireCount == row.fireCount + 1
              && after.slot.Some? && IsNextOnGrid(d.slot, period, now, after.slot.value)
       case Cron =>
         after == if cron.Some? then row.(slot := cron, status := Active, fireCount := row.fireCount + 1)
                  else row.(status := Dead)
  }

  /** What a poll does with one due row: it moves on exactly if it went out and was accepted. */
  ghost predicate RowIsSettled(holdMs: int, decisions: map<FireKey, Decision>, receipts: map<FireKey, Request>,
                               d: Due, now: int, luck: Luck, row: Row, after: Row) {
    if GoesOut(holdMs, decisions, d, now) && IsAccepted(receipts, d, now, luck.fate)
    then HasMovedOn(row, after, d, now, luck.cron)
    else after == row
  }

  lemma NextIsOnGrid(slot: int, period: int, now: int)
    requires period > 0 && slot <= Sec(now)
    ensures IsNextOnGrid(slot, period, now, NextInterval(slot, period, now))
  {
    NextIntervalIsLeast(slot, period, now, 0);
    forall k | (slot + k * period) * 1000 > now ensures NextInterval(slot, period, now) <= slot + k * period {
      NextIntervalIsLeast(slot, period, now, k);
    }
  }

  lemma AdvancedHasMovedOn(row: Row, d: Due, now: int, cron: Option<int>)
    requires d.slot <= Sec(now) && row.kind == d.kind && row.slot == Some(d.slot)
    ensures HasMovedOn(row, Advanced(row, NextOf(d.kind, d.slot, now, cron)), d, now, cron)
  {
    if d.kind.Interval? && d.kind.period > 0 { NextIsOnGrid(d.slot, d.kind.period, now); }
  }

  lemma RowAfterIsSettled(holdMs: int, decisions: map<FireKey, Decision>, receipts: map<FireKey, Request>,
                          d: Due, now: int, luck: Luck, row: Row)
    requires d.slot <= Sec(now) && row.kind == d.kind && row.slot == Some(d.slot)
    ensures RowIsSettled(holdMs, decisions, receipts, d, now, luck, row,
                         RowAfter(holdMs, row, decisions, receipts, d, now, luck.fate, luck.cron))
  {
    AdvancedHasMovedOn(row, d, now, luck.cron);
  }

  /** The rows, the hub and the holds after a whole poll. */
  ghost predicate PollIsSettled(
    holdMs: int, decisions: map<FireKey, Decision>, receipts: map<FireKey, Request>, stored: map<FireKey, Request>,
    was: map<string, Row>, rows: map<string, Row>, held: set<FireKey>, holds: set<FireKey>, due: seq<Due>, now: int,
    luck: seq<Luck>)
    requires |luck| == |due|
  {
    && (forall i :: 0 <= i < |due| ==>
          && due[i].id in was && due[i].id in rows
          && RowIsSettled(holdMs, decisions, receipts, due[i], now, luck[i], was[due[i].id], rows[due[i].id]))
    && (forall i :: 0 <= i < |due| ==>
          (KeyOf(due[i]) in stored <==>
           || KeyOf(due[i]) in receipts
           || (GoesOut(holdMs, decisions, due[i], now) && (luck[i].fate == Answered || luck[i].fate == AnswerLost))))
    && (forall key :: key in holds <==>
          key in held || exists i :: 0 <= i < |due| && KeyOf(due[i]) == key && key !in decisions
                                     && !GoesOut(holdMs, decisions, due[i], now))
  }

  lemma ScannedIsSettled(
    holdMs: int, decisions: map<FireKey, Decision>, receipts: map<FireKey, Request>, stored: map<FireKey, Request>,
    was: map<string, Row>, rows: map<string, Row>, held: set<FireKey>, holds: set<FireKey>, due: seq<Due>, now: int,
    luck: seq<Luck>)
    requires |luck| == |due| && QueueSound(was, due, now)
    requires RowsScanned(holdMs, was, rows, decisions, receipts, due, now, luck, |due|)
    requires HubScanned(holdMs, decisions, receipts, stored, due, now, luck, |due|)
    requires HoldsScanned(holdMs, decisions, held, holds, due, now, |due|)
    ensures PollIsSettled(holdMs, decisions, receipts, stored, was, rows, held, holds, due, now, luck)
  {
    forall i | 0 <= i < |due|
      ensures && due[i].id in was && due[i].id in rows
              && RowIsSettled(holdMs, decisions, receipts, due[i], now, luck[i], was[due[i].id], rows[due[i].id])
    {
      assert Reads(was, due[i]);
      RowAfterIsSettled(holdMs, decisions, receipts, due[i], now, luck[i], was[due[i].id]);
    }
    forall d: Due ensures GoesOut(holdMs, decisions, d, now) <==> !ShouldHold(holdMs, decisions, d, now) {}
    forall key ensures WaitsIn(holdMs, decisions, due, now, |due|, key) <==>
      exists i :: 0 <= i < |due| && KeyOf(due[i]) == key && key !in decisions
                  && !GoesOut(holdMs, decisions, due[i], now) {}
  }

  // ----- What a scan comes to -----

  datatype Luck = Luck(fate: Fate, cron: Option<int>)

  ghost predicate CronsLater(luck: seq<Luck>, now: int) {
    forall i :: 0 <= i < |luck| && luck[i].cron.Some? ==> luck[i].cron.value > Sec(now)
  }

  ghost predicate AllActive(rows: map<string, Row>, due: seq<Due>) {
    forall i :: 0 <= i < |due| ==> due[i].id in rows && rows[due[i].id].status.Active?
  }

  ghost predicate Untouched(due: seq<Due>, k: nat, id: string)
    requires k <= |due|
  {
    forall i :: 0 <= i < k ==> due[i].id != id
  }

  /** After k rows of the scan: each has met its fate, judged on what was known before it; the rest are as they were. */
  ghost predicate RowsScanned(holdMs: int, was: map<string, Row>, rows: map<string, Row>,
                              decisions: map<FireKey, Decision>,
                              receipts: map<FireKey, Request>, due: seq<Due>, now: int, luck: seq<Luck>, k: nat)
    requires k <= |due| == |luck|
  {
    && rows.Keys == was.Keys
    && (forall i :: 0 <= i < k ==> (
          && due[i].id in was
          && rows[due[i].id] == RowAfter(holdMs, was[due[i].id], decisions, receipts, due[i], now, luck[i].fate,
                                         luck[i].cron)))
    && (forall id :: id in was && Untouched(due, k, id) ==> rows[id] == was[id])
  }

  ghost predicate HubScanned(holdMs: int, decisions: map<FireKey, Decision>, receipts: map<FireKey, Request>,
                             after: map<FireKey, Request>, due: seq<Due>, now: int, luck: seq<Luck>, k: nat)
    requires k <= |due| == |luck|
  {
    && (forall i :: 0 <= i < k ==>
          (KeyOf(due[i]) in after <==> (
            KeyOf(due[i]) in receipts || Stores(holdMs, decisions, receipts, due[i], now, luck[i].fate))))
    && OnlyDueStored(receipts, after, due, now, k)
  }

  /** What has come to be stored is the first k rows' own, under their own keys, and the rest is as it was. */
  ghost predicate OnlyDueStored(receipts: map<FireKey, Request>, after: map<FireKey, Request>, due: seq<Due>,
                                now: int, k: nat)
    requires k <= |due|
  {
    && (forall i :: 0 <= i < k && KeyOf(due[i]) in after && KeyOf(due[i]) !in receipts ==>
          after[KeyOf(due[i])] == RequestOf(due[i], now))
    && (forall key :: key in receipts ==> key in after && after[key] == receipts[key])
    && (forall key :: key in after && key !in receipts ==> !Untouched(due, k, key.id))
  }

  /** A row of the first k waits for an operator who has not decided it. */
  ghost predicate WaitsIn(holdMs: int, decisions: map<FireKey, Decision>, due: seq<Due>, now: int, k: nat, key: FireKey)
    requires k <= |due|
  {
    exists i :: 0 <= i < k && KeyOf(due[i]) == key && key !in decisions && ShouldHold(holdMs, decisions, due[i], now)
  }

  ghost predicate HoldsScanned(holdMs: int, decisions: map<FireKey, Decision>, was: set<FireKey>, holds: set<FireKey>,
                               due: seq<Due>, now: int, k: nat)
    requires k <= |due|
  {
    forall key :: key in holds <==> (key in was || WaitsIn(holdMs, decisions, due, now, k, key))
  }

  lemma HoldsScannedOn(holdMs: int, decisions: map<FireKey, Decision>, was: set<FireKey>, holds: set<FireKey>,
                       due: seq<Due>, now: int, k: nat)
    requires k < |due| && HoldsScanned(holdMs, decisions, was, holds, due, now, k)
    ensures HoldsScanned(holdMs, decisions, was, HoldsAfter(holdMs, decisions, holds, due[k], now), due, now, k + 1)
  {
    var after := HoldsAfter(holdMs, decisions, holds, due[k], now);
    forall key ensures key in after <==> (key in was || WaitsIn(holdMs, decisions, due, now, k + 1, key)) {
      if WaitsIn(holdMs, decisions, due, now, k, key) {
        var i :| 0 <= i < k && KeyOf(due[i]) == key && key !in decisions && ShouldHold(holdMs, decisions, due[i], now);
        assert WaitsIn(holdMs, decisions, due, now, k + 1, key);
      }
    }
  }

  lemma DueListIsQueue(rows: map<string, Row>, now: int, due: seq<Due>)
    requires IsDueList(rows, now, due)
    ensures QueueSound(rows, due, now) && AllActive(rows, due)
  {
    forall i | 0 <= i < |due| ensures Reads(rows, due[i]) && due[i].slot <= Sec(now) && rows[due[i].id].status.Active? {
      assert IsDue(rows[due[i].id], now);
    }
  }

  lemma RowStillDue(holdMs: int, was: map<string, Row>, rows: map<string, Row>, decisions: map<FireKey, Decision>,
                    receipts: map<FireKey, Request>, due: seq<Due>, now: int, luck: seq<Luck>, k: nat)
    requires |due| == |luck| && k < |due| && QueueSound(was, due, now) && AllActive(was, due)
    requires RowsScanned(holdMs, was, rows, decisions, receipts, due, now, luck, k)
    ensures Untouched(due, k, due[k].id) && Reads(rows, due[k]) && rows[due[k].id] == was[due[k].id]
    ensures rows[due[k].id].status.Active? && due[k].slot <= Sec(now)
  {
    assert Untouched(due, k, due[k].id);
    assert Reads(was, due[k]);
  }

  /** What earlier sends stored does not bear on this one. */
  lemma FateIsItsOwn(holdMs: int, decisions: map<FireKey, Decision>, receipts: map<FireKey, Request>,
                     current: map<FireKey, Request>, due: seq<Due>, now: int, luck: seq<Luck>, k: nat, row: Row)
    requires |due| == |luck| && k < |due| && Untouched(due, k, due[k].id)
    requires HubScanned(holdMs, decisions, receipts, current, due, now, luck, k)
    ensures RowAfter(holdMs, row, decisions, current, due[k], now, luck[k].fate, luck[k].cron)
         == RowAfter(holdMs, row, decisions, receipts, due[k], now, luck[k].fate, luck[k].cron)
  {
    var key := KeyOf(due[k]);
    assert key in current <==> key in receipts;
    assert key in receipts ==> current[key] == receipts[key];
  }

  lemma RowsScannedOn(holdMs: int, was: map<string, Row>, rows: map<string, Row>, decisions: map<FireKey, Decision>,
                      receipts: map<FireKey, Request>, due: seq<Due>, now: int, luck: seq<Luck>, k: nat, row: Row)
    requires |due| == |luck| && k < |due| && due[k].id in was && Untouched(due, k, due[k].id)
    requires RowsScanned(holdMs, was, rows, decisions, receipts, due, now, luck, k)
    requires row == RowAfter(holdMs, was[due[k].id], decisions, receipts, due[k], now, luck[k].fate, luck[k].cron)
    ensures RowsScanned(holdMs, was, rows[due[k].id := row], decisions, receipts, due, now, luck, k + 1)
  {
    forall id | id in was && Untouched(due, k + 1, id) ensures rows[due[k].id := row][id] == was[id] {
      assert due[k].id != id && Untouched(due, k, id);
    }
  }

  lemma HubScannedOn(holdMs: int, decisions: map<FireKey, Decision>, receipts: map<FireKey, Request>,
                     current: map<FireKey, Request>, due: seq<Due>, now: int, luck: seq<Luck>, k: nat)
    requires |due| == |luck| && k < |due| && Untouched(due, k, due[k].id)
    requires HubScanned(holdMs, decisions, receipts, current, due, now, luck, k)
    ensures var after := if Stores(holdMs, decisions, current, due[k], now, luck[k].fate)
                         then current[KeyOf(due[k]) := RequestOf(due[k], now)] else current;
      HubScanned(holdMs, decisions, receipts, after, due, now, luck, k + 1)
  {
    forall key: FireKey | !Untouched(due, k, key.id) ensures !Untouched(due, k + 1, key.id) {}
    if Stores(holdMs, decisions, current, due[k], now, luck[k].fate) {
      HubScannedStore(holdMs, decisions, receipts, current, due, now, luck, k);
    } else {
      assert KeyOf(due[k]) in current <==> KeyOf(due[k]) in receipts;
    }
  }

  lemma HubScannedStore(holdMs: int, decisions: map<FireKey, Decision>, receipts: map<FireKey, Request>,
                        current: map<FireKey, Request>, due: seq<Due>, now: int, luck: seq<Luck>, k: nat)
    requires |due| == |luck| && k < |due| && Untouched(due, k, due[k].id)
    requires HubScanned(holdMs, decisions, receipts, current, due, now, luck, k)
    requires Stores(holdMs, decisions, current, due[k], now, luck[k].fate)
    ensures HubScanned(holdMs, decisions, receipts, current[KeyOf(due[k]) := RequestOf(due[k], now)], due, now, luck,
                       k + 1)
  {
    var d := due[k];
    assert KeyOf(d) !in receipts;
    OneMoreStored(receipts, current, due, now, k);
    forall i | 0 <= i < k ensures KeyOf(due[i]) != KeyOf(d) {}
  }

  lemma OneMoreStored(receipts: map<FireKey, Request>, current: map<FireKey, Request>, due: seq<Due>, now: int, k: nat)
    requires k < |due| && Untouched(due, k, due[k].id) && KeyOf(due[k]) !in receipts
    requires OnlyDueStored(receipts, current, due, now, k)
    ensures OnlyDueStored(receipts, current[KeyOf(due[k]) := RequestOf(due[k], now)], due, now, k + 1)
  {
    var after := current[KeyOf(due[k]) := RequestOf(due[k], now)];
    assert !Untouched(due, k + 1, due[k].id);
    forall key | key in after && key !in receipts ensures !Untouched(due, k + 1, key.id) {
      if key in current { assert !Untouched(due, k, key.id); }
    }
  }

  /** One more row of the scan. */
  lemma ScannedOn(holdMs: int, was: map<string, Row>, rows: map<string, Row>, decisions: map<FireKey, Decision>,
                  receipts: map<FireKey, Request>, current: map<FireKey, Request>, due: seq<Due>, now: int,
                  luck: seq<Luck>, k: nat)
    requires |due| == |luck| && k < |due| && QueueSound(was, due, now) && AllActive(was, due)
    requires RowsScanned(holdMs, was, rows, decisions, receipts, due, now, luck, k)
    requires HubScanned(holdMs, decisions, receipts, current, due, now, luck, k)
    ensures Reads(rows, due[k]) && rows[due[k].id].status.Active? && due[k].slot <= Sec(now)
    ensures RowsScanned(holdMs, was,
                        rows[due[k].id := RowAfter(holdMs, rows[due[k].id], decisions, current, due[k], now,
                                                   luck[k].fate, luck[k].cron)],
                        decisions, receipts, due, now, luck, k + 1)
    ensures HubScanned(holdMs, decisions, receipts,
                       if Stores(holdMs, decisions, current, due[k], now, luck[k].fate)
                       then current[KeyOf(due[k]) := RequestOf(due[k], now)] else current,
                       due, now, luck, k + 1)
    ensures due[k..][0] == due[k] && due[k..][1..] == due[k + 1..]
  {
    RowStillDue(holdMs, was, rows, decisions, receipts, due, now, luck, k);
    FateIsItsOwn(holdMs, decisions, receipts, current, due, now, luck, k, rows[due[k].id]);
    RowsScannedOn(holdMs, was, rows, decisions, receipts, due, now, luck, k,
                  RowAfter(holdMs, was[due[k].id], decisions, receipts, due[k], now, luck[k].fate, luck[k].cron));
    HubScannedOn(holdMs, decisions, receipts, current, due, now, luck, k);
  }

  lemma UpdateTwice(m: map<string, Row>, id: string, a: Row, b: Row)
    requires id in m
    ensures m[id := a][id := b] == m[id := b] && m[id := m[id]] == m
  {
  }
}
