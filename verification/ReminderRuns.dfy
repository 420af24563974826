/** What holds over every run of the protocol of Reminders.dfy. */
module ReminderRuns {
  import opened Wrappers
  import opened Reminders

  // ----- Changes of status alone -----

  /** Alike in all that a change of status leaves. */
  predicate Alike(row: Row, after: Row) {
    && after.slot == row.slot && after.kind == row.kind && after.agent == row.agent && after.fireCount == row.fireCount
    && (after.status.Dead? <==> row.status.Dead?) && (after.status.Fired? <==> row.status.Fired?)
  }

  predicate Fresh(row: Row) { row.status.Active? && row.slot.Some? && row.fireCount == 0 }

  ghost predicate OnlyStatus(rows: map<string, Row>, after: map<string, Row>) {
    && (forall id :: id in rows ==> id in after && Alike(rows[id], after[id]))
    && (forall id :: id in after && id !in rows ==> Fresh(after[id]))
  }

  /** Who a row is for and whether it repeats never change. */
  ghost predicate SameOwners(rows: map<string, Row>, after: map<string, Row>) {
    forall id :: id in rows ==> id in after && after[id].kind == rows[id].kind && after[id].agent == rows[id].agent
  }

  predicate Open(status: Status) { !status.Dead? && !status.Fired? }

  lemma OneStatus(rows: map<string, Row>, id: string, status: Status)
    requires id in rows && Open(rows[id].status) && Open(status)
    ensures var after := rows[id := rows[id].(status := status)];
      OnlyStatus(rows, after) && SameOwners(rows, after)
  {
  }

  lemma QueueStays(rows: map<string, Row>, after: map<string, Row>, due: seq<Due>, now: int)
    requires QueueSound(rows, due, now) && OnlyStatus(rows, after)
    ensures QueueSound(after, due, now)
  {
    forall i | 0 <= i < |due| ensures Reads(after, due[i]) { assert Reads(rows, due[i]); }
  }

  lemma HistoryStays(rows: map<string, Row>, after: map<string, Row>, fires: map<string, seq<int>>)
    requires HistorySound(rows, fires) && OnlyStatus(rows, after)
    ensures HistorySound(after, fires)
  {
    forall id | id in after ensures RowHistory(after[id], FiresOf(fires, id)) {
      if id in rows { assert RowHistory(rows[id], FiresOf(fires, id)); }
    }
  }

  lemma PermitsStay(holdMs: int, rows: map<string, Row>, after: map<string, Row>, replayed: set<Request>,
                    more: set<Request>,
                    sent: map<nat, Request>, receipts: map<FireKey, Request>, daemon: Daemon)
    requires HoldSound(holdMs, rows, replayed, sent, receipts, daemon)
    requires SameOwners(rows, after) && replayed <= more
    ensures HoldSound(holdMs, after, more, sent, receipts, daemon)
  {
    forall rpc | rpc in sent ensures Permitted(holdMs, after, more, sent[rpc]) {
      assert Permitted(holdMs, rows, replayed, sent[rpc]);
    }
    forall k | k in receipts ensures Permitted(holdMs, after, more, receipts[k]) {
      assert Permitted(holdMs, rows, replayed, receipts[k]);
    }
  }

  /** Everything but who is firing survives a change of status. */
  lemma StatusesKeep(holdMs: int, w: World, after: map<string, Row>)
    requires Valid(holdMs, w) && OnlyStatus(w.rows, after)
    ensures ScanSound(after, w.daemon, w.sent, w.receipts) && HistorySound(after, w.fires)
    ensures HoldSound(holdMs, after, w.replayed, w.sent, w.receipts, w.daemon)
  {
    if w.daemon.Scanning? { QueueStays(w.rows, after, w.daemon.due, w.daemon.now); }
    HistoryStays(w.rows, after, w.fires);
    PermitsStay(holdMs, w.rows, after, w.replayed, w.replayed, w.sent, w.receipts, w.daemon);
  }

  lemma ScheduleKeeps(holdMs: int, w: World, id: string, row: Row)
    requires Valid(holdMs, w) && id !in w.rows && Fresh(row)
    ensures Valid(holdMs, w.(rows := w.rows[id := row]))
  {
    StatusesKeep(holdMs, w, w.rows[id := row]);
  }

  lemma CancelKeeps(holdMs: int, w: World, id: string)
    requires Valid(holdMs, w) && id in w.rows && (w.rows[id].status.Active? || w.rows[id].status.Paused?)
    ensures Valid(holdMs, w.(rows := w.rows[id := w.rows[id].(status := Cancelled)]))
  {
    OneStatus(w.rows, id, Cancelled);
    StatusesKeep(holdMs, w, w.rows[id := w.rows[id].(status := Cancelled)]);
  }

  /** Recovery leaves no row firing and touches nothing but the status. */
  lemma RecoveryIsComplete(rows: map<string, Row>)
    requires forall id :: id in rows ==> (rows[id].slot.None? <==> rows[id].status.Fired?)
    ensures forall id :: id in Recovered(rows) ==> !Recovered(rows)[id].status.Firing?
    ensures OnlyStatus(rows, Recovered(rows))
  {
  }

  lemma BootKeeps(holdMs: int, w: World)
    requires Valid(holdMs, w)
    ensures Valid(holdMs, w.(daemon := Idle, rows := Recovered(w.rows), stranded := {}))
  {
    var after := Recovered(w.rows);
    forall id | id in w.rows ensures w.rows[id].slot.None? <==> w.rows[id].status.Fired? {
      assert RowHistory(w.rows[id], FiresOf(w.fires, id));
    }
    RecoveryIsComplete(w.rows);
    HistoryStays(w.rows, after, w.fires);
    PermitsStay(holdMs, w.rows, after, w.replayed, w.replayed, w.sent, w.receipts, w.daemon);
    IdleKeeps(holdMs, w, after);
  }

  lemma IdleKeeps(holdMs: int, w: World, after: map<string, Row>)
    requires HoldSound(holdMs, after, w.replayed, w.sent, w.receipts, w.daemon)
    requires forall id :: id in after ==> !after[id].status.Firing?
    ensures HoldSound(holdMs, after, w.replayed, w.sent, w.receipts, Idle)
    ensures ScanSound(after, Idle, w.sent, w.receipts) && FiringHeld(after, Idle, {})
  {
  }

  lemma DecideKeeps(holdMs: int, w: World, key: FireKey, decision: Decision)
    requires Valid(holdMs, w)
    ensures Valid(holdMs, w.(decisions := w.decisions[key := decision]))
  {
  }

  // ----- The scan -----

  lemma BeginKeeps(holdMs: int, w: World, now: int, due: seq<Due>)
    requires Valid(holdMs, w) && w.daemon.Idle? && IsDueList(w.rows, now, due)
    ensures Valid(holdMs, w.(daemon := Scanning(now, due, Choose)))
  {
    forall i | 0 <= i < |due| ensures due[i].slot <= Sec(now) {
      assert Reads(w.rows, due[i]) && IsDue(w.rows[due[i].id], now);
    }
  }

  /** Leaving a row that is no longer firing. */
  lemma PopKeeps(holdMs: int, w: World)
    requires w.daemon.Scanning? && w.daemon.due != []
    requires Valid(holdMs, w.(daemon := w.daemon.(stage := Choose)))
    ensures Valid(holdMs, Pop(w))
  {
    var due := w.daemon.due;
    assert QueueSound(w.rows, due, w.daemon.now);
    forall i | 0 <= i < |due| - 1 ensures Reads(w.rows, due[1..][i]) && due[1..][i].slot <= Sec(w.daemon.now) {
      assert due[1..][i] == due[i + 1];
    }
  }

  lemma ChooseKeeps(holdMs: int, w: World)
    requires Valid(holdMs, w) && At(w, Choose)
    ensures Valid(holdMs, Chosen(holdMs, w))
  {
    var d := w.daemon.due[0];
    var kept := w.(daemon := w.daemon.(stage := Choose));
    assert kept == w;
    if ShouldHold(holdMs, w.decisions, d, w.daemon.now) {
      HoldsDoNotMatter(holdMs, w, if KeyOf(d) in w.decisions then w.holds else w.holds + {KeyOf(d)});
    } else if d.id in w.rows && w.rows[d.id].status.Active? {
      ClaimKeeps(holdMs, w);
    } else {
      PopKeeps(holdMs, w);
    }
  }

  lemma HoldsDoNotMatter(holdMs: int, w: World, holds: set<FireKey>)
    requires Valid(holdMs, w) && At(w, Choose)
    ensures Valid(holdMs, Pop(w.(holds := holds)))
  {
    var v := w.(holds := holds);
    assert v.(daemon := v.daemon.(stage := Choose)) == v;
    PopKeeps(holdMs, v);
  }

  lemma FiringAfterClaim(rows: map<string, Row>, daemon: Daemon, stranded: set<string>)
    requires FiringHeld(rows, daemon, stranded) && daemon.Scanning? && daemon.stage.Choose? && daemon.due != []
    requires daemon.due[0].id in rows && rows[daemon.due[0].id].status.Active?
    ensures var id := daemon.due[0].id;
      FiringHeld(rows[id := rows[id].(status := Firing)], daemon.(stage := Claimed), stranded)
  {
  }

  lemma PermitsAfterClaim(holdMs: int, w: World)
    requires HoldSound(holdMs, w.rows, w.replayed, w.sent, w.receipts, w.daemon)
    requires At(w, Choose) && Reads(w.rows, w.daemon.due[0])
    requires !ShouldHold(holdMs, w.decisions, w.daemon.due[0], w.daemon.now)
    ensures HoldSound(holdMs, w.rows, Noted(w, w.daemon.due[0]), w.sent, w.receipts, w.daemon.(stage := Claimed))
  {
    PermitsStay(holdMs, w.rows, w.rows, w.replayed, Noted(w, w.daemon.due[0]), w.sent, w.receipts, w.daemon);
  }

  lemma ClaimKeeps(holdMs: int, w: World)
    requires Valid(holdMs, w) && At(w, Choose)
    requires var d := w.daemon.due[0];
      !ShouldHold(holdMs, w.decisions, d, w.daemon.now) && d.id in w.rows && w.rows[d.id].status.Active?
    ensures var d := w.daemon.due[0];
      Valid(holdMs, To(w.(rows := w.rows[d.id := w.rows[d.id].(status := Firing)], replayed := Noted(w, d)), Claimed))
  {
    var d := w.daemon.due[0];
    var after, claimed := w.rows[d.id := w.rows[d.id].(status := Firing)], w.daemon.(stage := Claimed);
    assert Reads(w.rows, d);
    OneStatus(w.rows, d.id, Firing);
    QueueStays(w.rows, after, w.daemon.due, w.daemon.now);
    HistoryStays(w.rows, after, w.fires);
    FiringAfterClaim(w.rows, w.daemon, w.stranded);
    PermitsAfterClaim(holdMs, w);
    PermitsStay(holdMs, w.rows, after, Noted(w, d), Noted(w, d), w.sent, w.receipts, claimed);
  }

  lemma PermitsAfterSend(holdMs: int, w: World, rpc: nat, stage: Stage)
    requires HoldSound(holdMs, w.rows, w.replayed, w.sent, w.receipts, w.daemon) && Working(w.daemon) && !stage.Choose?
    ensures var r := RequestOf(w.daemon.due[0], w.daemon.now);
      HoldSound(holdMs, w.rows, w.replayed, w.sent[rpc := r], w.receipts, w.daemon.(stage := stage))
  {
  }

  lemma SendKeeps(holdMs: int, w: World, rpc: nat)
    requires Valid(holdMs, w) && At(w, Claimed) && rpc !in w.sent
    ensures Valid(holdMs, Sent(w, rpc))
  {
    var r := RequestOf(w.daemon.due[0], w.daemon.now);
    PermitsAfterSend(holdMs, w, rpc, Awaiting(rpc));
    TransitAfterSend(w.wire, w.replies, w.sent, w.receipts, rpc, r);
  }

  lemma TransitAfterSend(wire: map<nat, Request>, replies: map<nat, Reply>, sent: map<nat, Request>,
                         receipts: map<FireKey, Request>, rpc: nat, r: Request)
    requires TransitSound(wire, replies, sent, receipts) && rpc !in sent
    ensures TransitSound(wire[rpc := r], replies, sent[rpc := r], receipts)
  {
  }

  /** Any stage that claims no message may follow a claimed one. */
  lemma FailKeeps(holdMs: int, w: World)
    requires Valid(holdMs, w) && Working(w.daemon)
    ensures Valid(holdMs, To(w, Failed))
  {
  }

  lemma ReceiveKeeps(holdMs: int, w: World)
    requires Valid(holdMs, w) && Working(w.daemon) && w.daemon.stage.Awaiting? && w.daemon.stage.rpc in w.replies
    ensures Valid(holdMs, To(w, if w.replies[w.daemon.stage.rpc].Ok? then Delivered else Failed))
  {
  }

  lemma ReactivateKeeps(holdMs: int, w: World)
    requires Valid(holdMs, w) && At(w, Failed)
    ensures Valid(holdMs, Reactivated(w))
  {
    var d := w.daemon.due[0];
    var after := w.rows[d.id := w.rows[d.id].(status := Active)];
    ActiveAgainKeeps(holdMs, w);
    PopKeeps(holdMs, w.(rows := after));
  }

  lemma ActiveAgainKeeps(holdMs: int, w: World)
    requires Valid(holdMs, w) && At(w, Failed)
    ensures var d := w.daemon.due[0];
      var after := w.rows[d.id := w.rows[d.id].(status := Active)];
      d.id in w.rows && Valid(holdMs, w.(rows := after, daemon := w.daemon.(stage := Choose)))
  {
    var d := w.daemon.due[0];
    var after := w.rows[d.id := w.rows[d.id].(status := Active)];
    FiringAfterReactivation(w.rows, w.daemon, w.stranded);
    OneStatus(w.rows, d.id, Active);
    StatusesKeep(holdMs, w, after);
    WaitingAtHead(holdMs, after, w.replayed, w.daemon, w.sent, w.receipts);
  }

  lemma FiringAfterReactivation(rows: map<string, Row>, daemon: Daemon, stranded: set<string>)
    requires FiringHeld(rows, daemon, stranded) && Working(daemon)
    ensures var id := daemon.due[0].id;
      FiringHeld(rows[id := rows[id].(status := Active)], daemon.(stage := Choose), stranded)
  {
  }

  lemma WaitingAtHead(holdMs: int, rows: map<string, Row>, replayed: set<Request>, daemon: Daemon,
                      sent: map<nat, Request>, receipts: map<FireKey, Request>)
    requires daemon.Scanning? && ScanSound(rows, daemon, sent, receipts)
    requires HoldSound(holdMs, rows, replayed, sent, receipts, daemon)
    ensures ScanSound(rows, daemon.(stage := Choose), sent, receipts)
    ensures HoldSound(holdMs, rows, replayed, sent, receipts, daemon.(stage := Choose))
  {
  }

  lemma EndKeeps(holdMs: int, w: World, daemon: Daemon)
    requires Valid(holdMs, w)
    requires daemon.Down? || (daemon.Idle? && w.daemon.Scanning? && w.daemon.due == [])
    ensures Valid(holdMs, w.(daemon := daemon))
  {
  }

  lemma ThrowKeeps(holdMs: int, w: World)
    requires Valid(holdMs, w) && MayThrow(w.daemon)
    ensures Valid(holdMs, Thrown(w))
  {
  }

  // ----- Advancing -----

  lemma AdvanceExtendsHistory(row: Row, past: seq<int>, slot: int, now: int, next: Option<int>)
    requires RowHistory(row, past) && row.status.Firing? && row.slot == Some(slot) && slot <= Sec(now)
    requires MayBeNext(row.kind, slot, now, next)
    ensures RowHistory(Advanced(row, next), past + [slot])
  {
  }

  lemma FireKeepsHistory(w: World, next: Option<int>)
    requires At(w, Delivered) && HistorySound(w.rows, w.fires) && FiresStored(w.fires, w.receipts)
    requires ScanSound(w.rows, w.daemon, w.sent, w.receipts) && FiringHeld(w.rows, w.daemon, w.stranded)
    requires MayBeNext(w.daemon.due[0].kind, w.daemon.due[0].slot, w.daemon.now, next)
    ensures var d := w.daemon.due[0];
      && d.id in w.rows && HistorySound(Fire(w, d, next).rows, Fire(w, d, next).fires)
      && FiresStored(Fire(w, d, next).fires, w.receipts)
  {
    var d := w.daemon.due[0];
    assert Reads(w.rows, d);
    AdvanceExtendsHistory(w.rows[d.id], FiresOf(w.fires, d.id), d.slot, w.daemon.now, next);
    var v := Fire(w, d, next);
    assert v.fires[d.id] == FiresOf(w.fires, d.id) + [d.slot];
    forall id | id in v.rows ensures RowHistory(v.rows[id], FiresOf(v.fires, id)) {
      if id != d.id { assert RowHistory(w.rows[id], FiresOf(w.fires, id)); }
    }
    forall id, i | id in v.fires && 0 <= i < |v.fires[id]| ensures FireKey(id, v.fires[id][i]) in w.receipts {
      if id == d.id && i == |v.fires[id]| - 1 { assert KeyOf(d) in w.receipts; }
    }
  }

  /** Only the row at the head moves; the rest of the scan is as it was read. */
  lemma QueueAfterFire(rows: map<string, Row>, due: seq<Due>, now: int, row: Row)
    requires due != [] && QueueSound(rows, due, now)
    ensures QueueSound(rows[due[0].id := row], due[1..], now)
  {
    forall i | 0 <= i < |due| - 1
      ensures Reads(rows[due[0].id := row], due[1..][i]) && due[1..][i].slot <= Sec(now) && due[1..][i].id != due[0].id
    {
      assert due[1..][i] == due[i + 1] && Reads(rows, due[i + 1]);
    }
  }

  lemma PopAfterFire(daemon: Daemon, rows: map<string, Row>, row: Row, sent: map<nat, Request>,
                     receipts: map<FireKey, Request>, stranded: set<string>)
    requires Working(daemon) && ScanSound(rows, daemon, sent, receipts) && FiringHeld(rows, daemon, stranded)
    requires !row.status.Firing?
    ensures var after, popped := rows[daemon.due[0].id := row], daemon.(due := daemon.due[1..], stage := Choose);
      ScanSound(after, popped, sent, receipts) && FiringHeld(after, popped, stranded)
  {
    QueueAfterFire(rows, daemon.due, daemon.now, row);
  }

  lemma PermitsAfterFire(holdMs: int, w: World, row: Row, popped: Daemon)
    requires HoldSound(holdMs, w.rows, w.replayed, w.sent, w.receipts, w.daemon) && Working(w.daemon)
    requires !Working(popped)
    requires var d := w.daemon.due[0];
      d.id in w.rows && row.kind == w.rows[d.id].kind && row.agent == w.rows[d.id].agent
    ensures HoldSound(holdMs, w.rows[w.daemon.due[0].id := row], w.replayed, w.sent, w.receipts, popped)
  {
    PermitsStay(holdMs, w.rows, w.rows[w.daemon.due[0].id := row], w.replayed, w.replayed, w.sent, w.receipts,
                w.daemon);
  }

  lemma AdvanceKeeps(holdMs: int, w: World, next: Option<int>)
    requires Valid(holdMs, w) && At(w, Delivered)
    requires MayBeNext(w.daemon.due[0].kind, w.daemon.due[0].slot, w.daemon.now, next)
    ensures w.daemon.due[0].id in w.rows && Valid(holdMs, Pop(Fire(w, w.daemon.due[0], next)))
  {
    FireKeepsHistory(w, next);
    var row := Advanced(w.rows[w.daemon.due[0].id], next);
    PopAfterFire(w.daemon, w.rows, row, w.sent, w.receipts, w.stranded);
    PermitsAfterFire(holdMs, w, row, w.daemon.(due := w.daemon.due[1..], stage := Choose));
  }

  // ----- The hub -----

  /** A new key brings its message, once. */
  lemma StoreKeepsHub(receipts: map<FireKey, Request>, messages: seq<Request>, r: Request)
    requires HubSound(receipts, messages) && r.key !in receipts
    ensures HubSound(receipts[r.key := r], messages + [r])
  {
    var more, longer := receipts[r.key := r], messages + [r];
    forall k | k in more ensures more[k] in longer {
      if k == r.key { assert longer[|messages|] == r; }
    }
  }

  lemma TransitAfterHandle(wire: map<nat, Request>, replies: map<nat, Reply>, sent: map<nat, Request>,
                           receipts: map<FireKey, Request>, more: map<FireKey, Request>, rpc: nat, reply: Reply)
    requires TransitSound(wire, replies, sent, receipts) && rpc in wire && receipts.Keys <= more.Keys
    requires reply.Ok? ==> wire[rpc].key in more
    ensures TransitSound(wire - {rpc}, replies[rpc := reply], sent, more)
  {
  }

  lemma PermitsAfterStore(holdMs: int, w: World, r: Request)
    requires HoldSound(holdMs, w.rows, w.replayed, w.sent, w.receipts, w.daemon)
    requires Permitted(holdMs, w.rows, w.replayed, r)
    ensures HoldSound(holdMs, w.rows, w.replayed, w.sent, w.receipts[r.key := r], w.daemon)
  {
  }

  lemma ScanAfterStore(rows: map<string, Row>, daemon: Daemon, sent: map<nat, Request>, receipts: map<FireKey, Request>,
                       fires: map<string, seq<int>>, r: Request)
    requires ScanSound(rows, daemon, sent, receipts) && FiresStored(fires, receipts)
    ensures ScanSound(rows, daemon, sent, receipts[r.key := r]) && FiresStored(fires, receipts[r.key := r])
  {
  }

  lemma HandleKeeps(holdMs: int, w: World, rpc: nat, refused: bool)
    requires Valid(holdMs, w) && rpc in w.wire
    ensures Valid(holdMs, Handled(w, rpc, refused))
  {
    var r := w.wire[rpc];
    assert w.sent[rpc] == r && Permitted(holdMs, w.rows, w.replayed, r);
    if refused {
      TransitAfterHandle(w.wire, w.replies, w.sent, w.receipts, w.receipts, rpc, Failure);
    } else if r.key in w.receipts {
      TransitAfterHandle(w.wire, w.replies, w.sent, w.receipts, w.receipts, rpc, Answer(w.receipts, r));
    } else {
      StoredKeeps(holdMs, w, rpc);
    }
  }

  lemma StoredKeeps(holdMs: int, w: World, rpc: nat)
    requires Valid(holdMs, w) && rpc in w.wire && w.wire[rpc].key !in w.receipts
    requires Permitted(holdMs, w.rows, w.replayed, w.wire[rpc])
    ensures var r := w.wire[rpc];
      Valid(holdMs, w.(wire := w.wire - {rpc}, replies := w.replies[rpc := Ok(false)],
                       receipts := w.receipts[r.key := r], messages := w.messages + [r]))
  {
    var r := w.wire[rpc];
    var more := w.receipts[r.key := r];
    TransitAfterHandle(w.wire, w.replies, w.sent, w.receipts, more, rpc, Ok(false));
    StoreKeepsHub(w.receipts, w.messages, r);
    PermitsAfterStore(holdMs, w, r);
    ScanAfterStore(w.rows, w.daemon, w.sent, w.receipts, w.fires, r);
  }

  lemma LoseKeeps(holdMs: int, w: World, rpc: nat)
    requires Valid(holdMs, w)
    ensures Valid(holdMs, w.(wire := w.wire - {rpc})) && Valid(holdMs, w.(replies := w.replies - {rpc}))
  {
  }

  // ----- Who writes the history -----

  lemma HappeningsNoteNothing(w: World, e: Elsewhere)
    requires MayHappen(w, e)
    ensures Happened(w, e).sent == w.sent && Happened(w, e).replayed == w.replayed
    ensures Happened(w, e).stranded == w.stranded && Happened(w, e).holds == w.holds
  {
    match e {
      case HubHandles(_, _) =>
      case _ =>
    }
  }

  lemma ChoosingNotes(holdMs: int, w: World)
    requires At(w, Choose)
    ensures Chosen(holdMs, w).sent == w.sent && Chosen(holdMs, w).stranded == w.stranded
  {
    var d := w.daemon.due[0];
    if ShouldHold(holdMs, w.decisions, d, w.daemon.now) {
    } else if d.id in w.rows && w.rows[d.id].status.Active? {
    }
  }

  lemma ReactivatingNotes(w: World)
    requires At(w, Failed)
    ensures var v := Reactivated(w);
      v.sent == w.sent && v.stranded == w.stranded && v.replayed == w.replayed && v.holds == w.holds
  {
  }

  lemma FiringNotes(w: World, next: Option<int>)
    requires At(w, Delivered) && w.daemon.due[0].id in w.rows
    ensures var v := Pop(Fire(w, w.daemon.due[0], next));
      v.sent == w.sent && v.stranded == w.stranded && v.replayed == w.replayed && v.holds == w.holds
  {
  }

  /** Only a send is noted as sent, only a claim as replayed. */
  lemma RowStepsNote(holdMs: int, w: World, e: RowStep)
    requires MayFollow(w, e)
    ensures Followed(holdMs, w, e).stranded == w.stranded
    ensures !e.Send? ==> Followed(holdMs, w, e).sent == w.sent
    ensures !e.ChooseRow? ==> Followed(holdMs, w, e).replayed == w.replayed && Followed(holdMs, w, e).holds == w.holds
  {
    match e {
      case ChooseRow => ChoosingNotes(holdMs, w);
      case Advance(next) => if w.daemon.due[0].id in w.rows { FiringNotes(w, next); }
      case Reactivate => ReactivatingNotes(w);
      case _ =>
    }
  }

  lemma ActsNoteNothing(w: World, e: DaemonStep)
    requires MayAct(w, e)
    ensures Acted(w, e).sent == w.sent && Acted(w, e).replayed == w.replayed && Acted(w, e).holds == w.holds
    ensures !e.ScanThrows? && !e.Boot? ==> Acted(w, e).stranded == w.stranded
  {
    match e {
      case BeginScan(_, _, _) =>
      case _ =>
    }
  }

  // ----- Runs -----

  lemma HappeningKeeps(holdMs: int, w: World, e: Elsewhere)
    requires Valid(holdMs, w) && MayHappen(w, e)
    ensures Valid(holdMs, Happened(w, e))
  {
    match e {
      case Schedule(id, row) => ScheduleKeeps(holdMs, w, id, row);
      case Cancel(id) => CancelKeeps(holdMs, w, id);
      case Decide(key, decision) => DecideKeeps(holdMs, w, key, decision);
      case HubHandles(rpc, refused) => HandleKeeps(holdMs, w, rpc, refused);
      case LoseRequest(rpc) => LoseKeeps(holdMs, w, rpc);
      case LoseReply(rpc) => LoseKeeps(holdMs, w, rpc);
    }
  }

  lemma RowStepKeeps(holdMs: int, w: World, e: RowStep)
    requires Valid(holdMs, w) && MayFollow(w, e)
    ensures Valid(holdMs, Followed(holdMs, w, e))
  {
    match e {
      case ChooseRow => ChooseKeeps(holdMs, w);
      case Send(rpc) => SendKeeps(holdMs, w, rpc);
      case SendFails => FailKeeps(holdMs, w);
      case Receive => ReceiveKeeps(holdMs, w);
      case GiveUp => FailKeeps(holdMs, w);
      case Advance(next) => AdvanceKeeps(holdMs, w, next);
      case AdvanceThrows => FailKeeps(holdMs, w);
      case Reactivate => ReactivateKeeps(holdMs, w);
    }
  }

  lemma ActKeeps(holdMs: int, w: World, e: DaemonStep)
    requires Valid(holdMs, w) && MayAct(w, e)
    ensures Valid(holdMs, Acted(w, e))
  {
    match e {
      case BeginScan(now, hubReady, due) => BeginKeeps(holdMs, w, now, due);
      case OverlappingPoll =>
      case EndScan => EndKeeps(holdMs, w, Idle);
      case ScanThrows => ThrowKeeps(holdMs, w);
      case Crash => EndKeeps(holdMs, w, Down);
      case Boot => BootKeeps(holdMs, w);
    }
  }

  lemma StepKeepsValid(holdMs: int, w: World, e: Event)
    requires Valid(holdMs, w) && Enabled(w, e)
    ensures Valid(holdMs, Step(holdMs, w, e))
  {
    match e {
      case Around(x) => HappeningKeeps(holdMs, w, x);
      case OnRow(x) => RowStepKeeps(holdMs, w, x);
      case OfDaemon(x) => ActKeeps(holdMs, w, x);
    }
  }
}
