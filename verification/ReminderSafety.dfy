/** Over whole runs of Reminders.dfy: what never goes wrong, and what one lost answer does to a reminder. */
module ReminderSafety {
  import opened Wrappers
  import opened Reminders
  import opened ReminderRuns

  ghost function After(holdMs: int, w: World, es: seq<Event>): World
    requires IsRun(holdMs, w, es)
    decreases |es|, 1
  {
    if es == [] then w else Step(holdMs, After(holdMs, w, es[..|es| - 1]), es[|es| - 1])
  }

  ghost predicate IsRun(holdMs: int, w: World, es: seq<Event>)
    decreases |es|, 0
  {
    es == [] || (IsRun(holdMs, w, es[..|es| - 1]) && Enabled(After(holdMs, w, es[..|es| - 1]), es[|es| - 1]))
  }

  /** However steps, crashes and losses interleave, everything in `Valid` holds between any two of them. */
  lemma {:induction false} RunKeepsValid(holdMs: int, w: World, es: seq<Event>)
    requires IsRun(holdMs, w, es) && Valid(holdMs, w)
    ensures Valid(holdMs, After(holdMs, w, es))
  {
    if es != [] {
      RunKeepsValid(holdMs, w, es[..|es| - 1]);
      StepKeepsValid(holdMs, After(holdMs, w, es[..|es| - 1]), es[|es| - 1]);
    }
  }

  // ----- Safety -----

  /** The hub never stores two messages for one fire. */
  lemma OneMessagePerFire(holdMs: int, es: seq<Event>, i: nat, j: nat)
    requires IsRun(holdMs, EMPTY, es)
    requires i < |After(holdMs, EMPTY, es).messages| && j < |After(holdMs, EMPTY, es).messages|
    requires After(holdMs, EMPTY, es).messages[i].key == After(holdMs, EMPTY, es).messages[j].key
    ensures i == j
  {
    RunKeepsValid(holdMs, EMPTY, es);
  }

  ghost predicate IsStoredAt(messages: seq<Request>, k: FireKey, i: nat) { i < |messages| && messages[i].key == k }

  /** Every slot a row has moved past by firing has its message, exactly one, sent to the row's owner. */
  lemma EveryFireIsStoredOnce(holdMs: int, es: seq<Event>, id: string, n: nat) returns (i: nat)
    requires IsRun(holdMs, EMPTY, es)
    requires n < |FiresOf(After(holdMs, EMPTY, es).fires, id)|
    ensures var w := After(holdMs, EMPTY, es);
      var k := FireKey(id, FiresOf(w.fires, id)[n]);
      && IsStoredAt(w.messages, k, i) && (forall j :: IsStoredAt(w.messages, k, j) ==> j == i)
      && id in w.rows && w.messages[i].to == w.rows[id].agent
  {
    RunKeepsValid(holdMs, EMPTY, es);
    var w := After(holdMs, EMPTY, es);
    var k := FireKey(id, w.fires[id][n]);
    assert k in w.receipts && w.receipts[k] in w.messages && Permitted(holdMs, w.rows, w.replayed, w.receipts[k]);
    i :| 0 <= i < |w.messages| && w.messages[i] == w.receipts[k];
    forall j | IsStoredAt(w.messages, k, j) ensures j == i { OneMessagePerFire(holdMs, es, i, j); }
  }

  /** A row fires for ever later slots, and the one it waits for lies beyond them all. */
  lemma SlotsIncrease(holdMs: int, es: seq<Event>, id: string)
    requires IsRun(holdMs, EMPTY, es) && id in After(holdMs, EMPTY, es).rows
    ensures var w := After(holdMs, EMPTY, es);
      var row, past := w.rows[id], FiresOf(w.fires, id);
      && Increasing(past)
      && (row.slot.Some? && !row.status.Dead? ==> forall i :: 0 <= i < |past| ==> past[i] < row.slot.value)
      && (!row.status.Dead? ==> row.fireCount == |past|)
  {
    RunKeepsValid(holdMs, EMPTY, es);
    assert RowHistory(After(holdMs, EMPTY, es).rows[id], FiresOf(After(holdMs, EMPTY, es).fires, id));
  }

  // ----- What is left firing -----

  /** The n-th event is a throw that ends the poll while the daemon works on the row, and no boot has followed. */
  ghost predicate GivenUpAt(holdMs: int, es: seq<Event>, n: nat, id: string) {
    && n < |es| && IsRun(holdMs, EMPTY, es[..n]) && es[n] == OfDaemon(ScanThrows)
    && WorksOn(After(holdMs, EMPTY, es[..n]).daemon, id)
    && forall m :: n < m < |es| ==> es[m] != OfDaemon(Boot)
  }

  predicate WorksOn(daemon: Daemon, id: string) { Working(daemon) && daemon.due[0].id == id }

  /** One step: rows are given up by a throw alone and taken up again by a boot alone. */
  lemma StrandsOnlyThrows(holdMs: int, w: World, e: Event, id: string)
    requires Enabled(w, e)
    ensures id in Step(holdMs, w, e).stranded <==>
            (id in w.stranded && e != OfDaemon(Boot)) || (e == OfDaemon(ScanThrows) && WorksOn(w.daemon, id))
  {
    match e {
      case Around(x) => HappeningsNoteNothing(w, x);
      case OnRow(x) => RowStepsNote(holdMs, w, x);
      case OfDaemon(x) => ActsNoteNothing(w, x);
    }
  }

  lemma {:induction false} StrandedIff(holdMs: int, es: seq<Event>, id: string)
    requires IsRun(holdMs, EMPTY, es)
    ensures id in After(holdMs, EMPTY, es).stranded <==> exists n :: GivenUpAt(holdMs, es, n, id)
  {
    if es != [] {
      var last := |es| - 1;
      var before, e := es[..last], es[last];
      StrandedIff(holdMs, before, id);
      StrandsOnlyThrows(holdMs, After(holdMs, EMPTY, before), e, id);
      forall n: nat | n < last ensures GivenUpAt(holdMs, es, n, id) <==>
                                       GivenUpAt(holdMs, before, n, id) && e != OfDaemon(Boot) {
        assert before[..n] == es[..n];
      }
      assert GivenUpAt(holdMs, es, last, id) <==>
             e == OfDaemon(ScanThrows) && WorksOn(After(holdMs, EMPTY, before).daemon, id);
    }
  }

  /** While the daemon is at rest, a row is firing exactly when a throw has given it up and no boot has followed. */
  lemma LeftFiringIff(holdMs: int, es: seq<Event>, id: string)
    requires IsRun(holdMs, EMPTY, es) && After(holdMs, EMPTY, es).daemon.Idle?
    ensures (id in After(holdMs, EMPTY, es).rows && After(holdMs, EMPTY, es).rows[id].status.Firing?) <==>
            exists n :: GivenUpAt(holdMs, es, n, id)
  {
    RunKeepsValid(holdMs, EMPTY, es);
    StrandedIff(holdMs, es, id);
    var w := After(holdMs, EMPTY, es);
    assert FiringHeld(w.rows, w.daemon, w.stranded);
  }

  /** Only a boot takes such a row up again: until then it is firing, so no scan selects it. */
  lemma {:induction false} StrandedStays(holdMs: int, w: World, es: seq<Event>, id: string)
    requires Valid(holdMs, w) && IsRun(holdMs, w, es) && id in w.stranded && OfDaemon(Boot) !in es
    ensures var v := After(holdMs, w, es);
      id in v.rows && v.rows[id].status.Firing? && forall now :: !IsDue(v.rows[id], now)
    ensures id in After(holdMs, w, es).stranded
  {
    RunKeepsValid(holdMs, w, es);
    if es != [] {
      var before := es[..|es| - 1];
      StrandedStays(holdMs, w, before, id);
      StrandsOnlyThrows(holdMs, After(holdMs, w, before), es[|es| - 1], id);
    }
    assert FiringHeld(After(holdMs, w, es).rows, After(holdMs, w, es).daemon, After(holdMs, w, es).stranded);
  }

  /** The row at the head is being chosen for this send, and the decision on its fire is a replay. */
  predicate IsClaimUnderReplay(w: World, r: Request) {
    At(w, Choose) && RequestOf(w.daemon.due[0], w.daemon.now) == r && r.key in w.decisions && w.decisions[r.key].Replay?
  }

  lemma ClaimNotes(holdMs: int, w: World)
    requires At(w, Choose) && !ShouldHold(holdMs, w.decisions, w.daemon.due[0], w.daemon.now)
    requires w.daemon.due[0].id in w.rows && w.rows[w.daemon.due[0].id].status.Active?
    ensures Chosen(holdMs, w).replayed == Noted(w, w.daemon.due[0])
  {
  }

  lemma PassingNotesNothing(holdMs: int, w: World)
    requires At(w, Choose)
    requires var d := w.daemon.due[0];
      ShouldHold(holdMs, w.decisions, d, w.daemon.now) || d.id !in w.rows || !w.rows[d.id].status.Active?
    ensures Chosen(holdMs, w).replayed == w.replayed
  {
    if ShouldHold(holdMs, w.decisions, w.daemon.due[0], w.daemon.now) {
    } else {
      assert Chosen(holdMs, w) == Pop(w);
    }
  }

  lemma ChoiceNotes(holdMs: int, w: World, r: Request)
    requires At(w, Choose) && r in Chosen(holdMs, w).replayed
    ensures r in w.replayed || IsClaimUnderReplay(w, r)
  {
    var d := w.daemon.due[0];
    if ShouldHold(holdMs, w.decisions, d, w.daemon.now) || d.id !in w.rows || !w.rows[d.id].status.Active? {
      PassingNotesNothing(holdMs, w);
    } else {
      ClaimNotes(holdMs, w);
    }
  }

  ghost predicate ClaimedUnderReplay(holdMs: int, es: seq<Event>, n: nat, r: Request) {
    && n < |es| && IsRun(holdMs, EMPTY, es[..n]) && es[n] == OnRow(ChooseRow)
    && IsClaimUnderReplay(After(holdMs, EMPTY, es[..n]), r)
  }

  lemma {:induction false} NotedWasClaimed(holdMs: int, es: seq<Event>, r: Request) returns (n: nat)
    requires IsRun(holdMs, EMPTY, es) && r in After(holdMs, EMPTY, es).replayed
    ensures ClaimedUnderReplay(holdMs, es, n, r)
  {
    n := |es| - 1;
    var before := es[..n];
    var w := After(holdMs, EMPTY, before);
    if r in w.replayed {
      n := NotedWasClaimed(holdMs, before, r);
      assert before[..n] == es[..n];
    } else {
      match es[n] {
        case Around(x) => HappeningsNoteNothing(w, x);
        case OnRow(x) =>
          RowStepsNote(holdMs, w, x);
          ChoiceNotes(holdMs, w, r);
        case OfDaemon(x) => ActsNoteNothing(w, x);
      }
    }
  }

  /**
   * A one-shot stored later than the hold window was claimed, at the very instant its message names,
   * while the decision in force on that very slot was a replay.
   */
  lemma LateOneShotWasReplayed(holdMs: int, es: seq<Event>, i: nat) returns (n: nat)
    requires IsRun(holdMs, EMPTY, es) && i < |After(holdMs, EMPTY, es).messages|
    requires var w := After(holdMs, EMPTY, es);
      var r := w.messages[i];
      r.key.id in w.rows && w.rows[r.key.id].kind.Once? && r.firedAt - r.key.slot * 1000 > holdMs
    ensures ClaimedUnderReplay(holdMs, es, n, After(holdMs, EMPTY, es).messages[i])
  {
    RunKeepsValid(holdMs, EMPTY, es);
    var w := After(holdMs, EMPTY, es);
    var r := w.messages[i];
    assert w.receipts[r.key] == r && Permitted(holdMs, w.rows, w.replayed, r);
    n := NotedWasClaimed(holdMs, es, r);
  }

  // ----- What is held -----

  /** The fire at the head is being chosen: a one-shot further back than the hold window that nobody has decided. */
  ghost predicate IsHeldBack(holdMs: int, w: World, k: FireKey) {
    && At(w, Choose) && w.daemon.due[0].id == k.id && w.daemon.due[0].slot == k.slot
    && w.daemon.due[0].kind == Once && w.daemon.now - k.slot * 1000 > holdMs && k !in w.decisions
  }

  ghost predicate HeldBackAt(holdMs: int, es: seq<Event>, n: nat, k: FireKey) {
    && n < |es| && IsRun(holdMs, EMPTY, es[..n]) && es[n] == OnRow(ChooseRow)
    && IsHeldBack(holdMs, After(holdMs, EMPTY, es[..n]), k)
  }

  lemma ChoiceHolds(holdMs: int, w: World, k: FireKey)
    requires At(w, Choose)
    ensures k in Chosen(holdMs, w).holds <==> k in w.holds || IsHeldBack(holdMs, w, k)
  {
    var d := w.daemon.due[0];
    if ShouldHold(holdMs, w.decisions, d, w.daemon.now) {
      HeldIsUntouched(holdMs, w);
    } else if d.id in w.rows && w.rows[d.id].status.Active? {
      ClaimedIsFiring(holdMs, w);
    }
  }

  lemma StepHolds(holdMs: int, w: World, e: Event, k: FireKey)
    requires Enabled(w, e)
    ensures k in Step(holdMs, w, e).holds <==> k in w.holds || (e == OnRow(ChooseRow) && IsHeldBack(holdMs, w, k))
  {
    match e {
      case Around(x) => HappeningsNoteNothing(w, x);
      case OnRow(x) =>
        RowStepsNote(holdMs, w, x);
        if x.ChooseRow? { ChoiceHolds(holdMs, w, k); }
      case OfDaemon(x) => ActsNoteNothing(w, x);
    }
  }

  /**
   * Over every run the holds on record are those of the one-shots that a scan came to, further back than
   * the window, while nobody had decided them. So no repeating reminder and none on time is ever held.
   */
  lemma {:induction false} HeldIff(holdMs: int, es: seq<Event>, k: FireKey)
    requires IsRun(holdMs, EMPTY, es)
    ensures k in After(holdMs, EMPTY, es).holds <==> exists n :: HeldBackAt(holdMs, es, n, k)
  {
    if es != [] {
      var last := |es| - 1;
      var before, e := es[..last], es[last];
      HeldIff(holdMs, before, k);
      StepHolds(holdMs, After(holdMs, EMPTY, before), e, k);
      forall n: nat | n < last ensures HeldBackAt(holdMs, es, n, k) <==> HeldBackAt(holdMs, before, n, k) {
        assert before[..n] == es[..n];
      }
      assert HeldBackAt(holdMs, es, last, k) <==>
             e == OnRow(ChooseRow) && IsHeldBack(holdMs, After(holdMs, EMPTY, before), k);
    }
  }

  // ----- What a retry is answered -----

  /** The hub recognises a retry only when it was fired at the very instant of the send it repeats. */
  lemma RetryIsRecognisedIffSameInstant(holdMs: int, w: World, rpc: nat)
    requires Valid(holdMs, w) && rpc in w.wire && w.wire[rpc].key in w.receipts
    ensures var r := w.wire[rpc];
      && (Answer(w.receipts, r) == Ok(true) <==> r.firedAt == w.receipts[r.key].firedAt)
      && (r.firedAt != w.receipts[r.key].firedAt ==> Answer(w.receipts, r) == Failure)
  {
    var r := w.wire[rpc];
    assert w.sent[rpc] == r && Permitted(holdMs, w.rows, w.replayed, r);
    assert Permitted(holdMs, w.rows, w.replayed, w.receipts[r.key]) && w.receipts[r.key].key == r.key;
  }

  // ----- A lost answer -----

  ghost predicate NoTwin(wire: map<nat, Request>, r: Request) { forall rpc :: rpc in wire ==> wire[rpc] != r }

  /** If the daemon awaits an answer for the row, no acceptance is under way to it. */
  ghost predicate NoAcceptance(replies: map<nat, Reply>, daemon: Daemon, id: string) {
    WorksOn(daemon, id) && daemon.stage.Awaiting? && daemon.stage.rpc in replies ==> !replies[daemon.stage.rpc].Ok?
  }

  /** A scan still to come to the row, or at it, is at another instant, unless its send has been made already. */
  ghost predicate CannotRepeat(daemon: Daemon, id: string, firedAt: int) {
    daemon.Scanning? ==>
      && (daemon.due != [] && daemon.due[0].id == id ==> !daemon.stage.Delivered?)
      && (forall i :: 0 <= i < |daemon.due| && daemon.due[i].id == id ==>
            daemon.now != firedAt || (i == 0 && (daemon.stage.Awaiting? || daemon.stage.Failed?)))
  }

  ghost predicate RowAt(rows: map<string, Row>, id: string, slot: int) { id in rows && rows[id].slot == Some(slot) }

  /** The fire is stored, its row does not know it, and nothing on the way can tell it. */
  ghost predicate Blocked(w: World, id: string, slot: int) {
    var k := FireKey(id, slot);
    && k in w.receipts && RowAt(w.rows, id, slot)
    && NoTwin(w.wire, w.receipts[k]) && NoAcceptance(w.replies, w.daemon, id)
    && CannotRepeat(w.daemon, id, w.receipts[k].firedAt)
  }

  /** A scan at an instant other than the one the stored message was fired at. */
  predicate AtAnotherInstant(e: Event, firedAt: int) { e.OfDaemon? && e.act.BeginScan? ==> e.act.now != firedAt }

  /** `v` still waits at the slot, and nothing has fired for the row or changed its stored message. */
  ghost predicate StaysBlocked(w: World, v: World, id: string, slot: int) {
    && Blocked(v, id, slot) && FireKey(id, slot) in w.receipts
    && v.receipts[FireKey(id, slot)] == w.receipts[FireKey(id, slot)] && FiresOf(v.fires, id) == FiresOf(w.fires, id)
  }

  lemma SendLeavesBlocked(w: World, rpc: nat, id: string, slot: int)
    requires HubSound(w.receipts, w.messages) && TransitSound(w.wire, w.replies, w.sent, w.receipts)
    requires Blocked(w, id, slot) && At(w, Claimed) && rpc !in w.sent
    ensures StaysBlocked(w, Sent(w, rpc), id, slot)
  {
    assert w.receipts[FireKey(id, slot)].key == FireKey(id, slot);
    assert RequestOf(w.daemon.due[0], w.daemon.now) != w.receipts[FireKey(id, slot)];
  }

  /** The stored message answers nothing but itself, and no copy of it is on the way. */
  lemma AnswerIsRefusal(receipts: map<FireKey, Request>, wire: map<nat, Request>, replies: map<nat, Reply>,
                        daemon: Daemon, rpc: nat, refused: bool, id: string, slot: int)
    requires rpc in wire && FireKey(id, slot) in receipts
    requires NoTwin(wire, receipts[FireKey(id, slot)]) && NoAcceptance(replies, daemon, id)
    requires WorksOn(daemon, id) && daemon.stage == Awaiting(rpc) ==> wire[rpc].key == FireKey(id, slot)
    ensures NoTwin(wire - {rpc}, receipts[FireKey(id, slot)])
    ensures NoAcceptance(replies[rpc := if refused then Failure else Answer(receipts, wire[rpc])], daemon, id)
  {
  }

  /** Nothing else bears on it. */
  lemma BlockedFrom(w: World, v: World, id: string, slot: int)
    requires Blocked(w, id, slot) && FireKey(id, slot) in v.receipts
    requires v.receipts[FireKey(id, slot)] == w.receipts[FireKey(id, slot)]
    requires v.rows == w.rows && v.daemon == w.daemon && v.fires == w.fires
    requires NoTwin(v.wire, w.receipts[FireKey(id, slot)]) && NoAcceptance(v.replies, w.daemon, id)
    ensures StaysBlocked(w, v, id, slot)
  {
  }

  lemma HandledIs(w: World, rpc: nat, refused: bool, k: FireKey)
    requires rpc in w.wire && k in w.receipts
    ensures var v := Handled(w, rpc, refused);
      && k in v.receipts && v.receipts[k] == w.receipts[k]
      && v.rows == w.rows && v.daemon == w.daemon && v.fires == w.fires && v.wire == w.wire - {rpc}
      && v.replies == w.replies[rpc := if refused then Failure else Answer(w.receipts, w.wire[rpc])]
  {
  }

  lemma HandlingLeavesBlocked(holdMs: int, w: World, rpc: nat, refused: bool, id: string, slot: int)
    requires Valid(holdMs, w) && Blocked(w, id, slot) && rpc in w.wire
    ensures StaysBlocked(w, Handled(w, rpc, refused), id, slot)
  {
    if WorksOn(w.daemon, id) && w.daemon.stage == Awaiting(rpc) {
      assert Reads(w.rows, w.daemon.due[0]) && w.sent[rpc] == w.wire[rpc];
    }
    AnswerIsRefusal(w.receipts, w.wire, w.replies, w.daemon, rpc, refused, id, slot);
    HandledIs(w, rpc, refused, FireKey(id, slot));
    BlockedFrom(w, Handled(w, rpc, refused), id, slot);
  }

  lemma HappeningLeavesBlocked(holdMs: int, w: World, e: Elsewhere, id: string, slot: int)
    requires Valid(holdMs, w) && MayHappen(w, e) && Blocked(w, id, slot)
    ensures StaysBlocked(w, Happened(w, e), id, slot)
  {
    match e {
      case HubHandles(rpc, refused) => HandlingLeavesBlocked(holdMs, w, rpc, refused, id, slot);
      case _ =>
    }
  }

  lemma RestCannotRepeat(daemon: Daemon, id: string, firedAt: int)
    requires daemon.Scanning? && daemon.due != [] && CannotRepeat(daemon, id, firedAt)
    requires forall i, j :: 0 <= i < j < |daemon.due| ==> daemon.due[i].id != daemon.due[j].id
    ensures CannotRepeat(daemon.(due := daemon.due[1..], stage := Choose), id, firedAt)
  {
    forall i | 0 <= i < |daemon.due| - 1 ensures daemon.due[1..][i] == daemon.due[i + 1] {}
  }

  lemma ClaimLeavesBlocked(w: World, id: string, slot: int)
    requires At(w, Choose) && Blocked(w, id, slot) && w.daemon.due[0].id in w.rows
    ensures var d := w.daemon.due[0];
      var claimed := w.(rows := w.rows[d.id := w.rows[d.id].(status := Firing)], replayed := Noted(w, d));
      StaysBlocked(w, To(claimed, Claimed), id, slot)
  {
  }

  lemma PassingLeavesBlocked(w: World, holds: set<FireKey>, id: string, slot: int)
    requires At(w, Choose) && Blocked(w, id, slot) && QueueSound(w.rows, w.daemon.due, w.daemon.now)
    ensures StaysBlocked(w, Pop(w.(holds := holds)), id, slot) && StaysBlocked(w, Pop(w), id, slot)
  {
    RestCannotRepeat(w.daemon, id, w.receipts[FireKey(id, slot)].firedAt);
  }

  lemma ChoosingLeavesBlocked(holdMs: int, w: World, id: string, slot: int)
    requires At(w, Choose) && Blocked(w, id, slot) && QueueSound(w.rows, w.daemon.due, w.daemon.now)
    ensures StaysBlocked(w, Chosen(holdMs, w), id, slot)
  {
    var d := w.daemon.due[0];
    if ShouldHold(holdMs, w.decisions, d, w.daemon.now) {
      PassingLeavesBlocked(w, if KeyOf(d) in w.decisions then w.holds else w.holds + {KeyOf(d)}, id, slot);
    } else if d.id in w.rows && w.rows[d.id].status.Active? {
      ClaimLeavesBlocked(w, id, slot);
    } else {
      PassingLeavesBlocked(w, w.holds, id, slot);
    }
  }

  /** Only another row can be at the stage that moves a slot. */
  lemma AdvanceLeavesBlocked(holdMs: int, w: World, next: Option<int>, id: string, slot: int)
    requires Valid(holdMs, w) && At(w, Delivered) && Blocked(w, id, slot) && w.daemon.due[0].id in w.rows
    ensures StaysBlocked(w, Pop(Fire(w, w.daemon.due[0], next)), id, slot)
  {
    RestCannotRepeat(w.daemon, id, w.receipts[FireKey(id, slot)].firedAt);
  }

  lemma ReactivatingLeavesBlocked(holdMs: int, w: World, id: string, slot: int)
    requires Valid(holdMs, w) && At(w, Failed) && Blocked(w, id, slot) && w.daemon.due[0].id in w.rows
    ensures StaysBlocked(w, Reactivated(w), id, slot)
  {
    RestCannotRepeat(w.daemon, id, w.receipts[FireKey(id, slot)].firedAt);
  }

  lemma ReceivingLeavesBlocked(holdMs: int, w: World, id: string, slot: int)
    requires Valid(holdMs, w) && Blocked(w, id, slot)
    requires Working(w.daemon) && w.daemon.stage.Awaiting? && w.daemon.stage.rpc in w.replies
    ensures StaysBlocked(w, To(w, if w.replies[w.daemon.stage.rpc].Ok? then Delivered else Failed), id, slot)
  {
    assert Reads(w.rows, w.daemon.due[0]);
  }

  lemma FailingLeavesBlocked(w: World, id: string, slot: int)
    requires Blocked(w, id, slot) && Working(w.daemon)
    ensures StaysBlocked(w, To(w, Failed), id, slot)
  {
  }

  lemma RowStepLeavesBlocked(holdMs: int, w: World, e: RowStep, id: string, slot: int)
    requires Valid(holdMs, w) && MayFollow(w, e) && Blocked(w, id, slot)
    ensures StaysBlocked(w, Followed(holdMs, w, e), id, slot)
  {
    match e {
      case ChooseRow => ChoosingLeavesBlocked(holdMs, w, id, slot);
      case Send(rpc) => SendLeavesBlocked(w, rpc, id, slot);
      case SendFails => FailingLeavesBlocked(w, id, slot);
      case Receive => ReceivingLeavesBlocked(holdMs, w, id, slot);
      case GiveUp => FailingLeavesBlocked(w, id, slot);
      case Advance(next) => AdvanceLeavesBlocked(holdMs, w, next, id, slot);
      case AdvanceThrows => FailingLeavesBlocked(w, id, slot);
      case Reactivate => ReactivatingLeavesBlocked(holdMs, w, id, slot);
    }
  }

  lemma BeginLeavesBlocked(w: World, now: int, due: seq<Due>, id: string, slot: int)
    requires Blocked(w, id, slot) && now != w.receipts[FireKey(id, slot)].firedAt
    ensures StaysBlocked(w, w.(daemon := Scanning(now, due, Choose)), id, slot)
    ensures StaysBlocked(w, w, id, slot)
  {
  }

  lemma EndingLeavesBlocked(w: World, daemon: Daemon, rows: map<string, Row>, stranded: set<string>, id: string,
                            slot: int)
    requires Blocked(w, id, slot) && !daemon.Scanning? && RowAt(rows, id, slot)
    ensures StaysBlocked(w, w.(daemon := daemon, rows := rows, stranded := stranded), id, slot)
  {
  }

  lemma ActLeavesBlocked(w: World, e: DaemonStep, id: string, slot: int)
    requires MayAct(w, e) && Blocked(w, id, slot)
    requires e.BeginScan? ==> e.now != w.receipts[FireKey(id, slot)].firedAt
    ensures StaysBlocked(w, Acted(w, e), id, slot)
  {
    match e {
      case BeginScan(now, hubReady, due) => BeginLeavesBlocked(w, now, due, id, slot);
      case OverlappingPoll =>
      case EndScan => EndingLeavesBlocked(w, Idle, w.rows, w.stranded, id, slot);
      case ScanThrows => EndingLeavesBlocked(w, Idle, w.rows, Thrown(w).stranded, id, slot);
      case Crash => EndingLeavesBlocked(w, Down, w.rows, w.stranded, id, slot);
      case Boot => EndingLeavesBlocked(w, Idle, Recovered(w.rows), {}, id, slot);
    }
  }

  lemma BlockedStays(holdMs: int, w: World, e: Event, id: string, slot: int)
    requires Valid(holdMs, w) && Enabled(w, e) && Blocked(w, id, slot)
    requires AtAnotherInstant(e, w.receipts[FireKey(id, slot)].firedAt)
    ensures StaysBlocked(w, Step(holdMs, w, e), id, slot)
  {
    match e {
      case Around(x) => HappeningLeavesBlocked(holdMs, w, x, id, slot);
      case OnRow(x) => RowStepLeavesBlocked(holdMs, w, x, id, slot);
      case OfDaemon(x) => ActLeavesBlocked(w, x, id, slot);
    }
  }

  /**
   * A reminder whose message was stored and whose answer was lost never fires again: every later
   * send for its slot is refused as a different message under a used key, so the slot never moves.
   */
  lemma {:induction false} LostAnswerStopsTheReminder(holdMs: int, w: World, es: seq<Event>, id: string, slot: int)
    requires Valid(holdMs, w) && Blocked(w, id, slot) && IsRun(holdMs, w, es)
    requires forall n :: 0 <= n < |es| ==> AtAnotherInstant(es[n], w.receipts[FireKey(id, slot)].firedAt)
    ensures StaysBlocked(w, After(holdMs, w, es), id, slot)
  {
    if es != [] {
      var before := es[..|es| - 1];
      LostAnswerStopsTheReminder(holdMs, w, before, id, slot);
      RunKeepsValid(holdMs, w, before);
      BlockedStays(holdMs, After(holdMs, w, before), es[|es| - 1], id, slot);
    }
  }

  /** A first send stored, with no copy of it under way: its answer lost, or come too late, is all it takes. */
  lemma LosingTheAnswerBlocks(holdMs: int, w: World, rpc: nat)
    requires Valid(holdMs, w) && Working(w.daemon) && w.daemon.stage == Awaiting(rpc)
    requires rpc in w.wire && w.wire[rpc].key !in w.receipts
    requires forall other :: other in w.wire && other != rpc ==> w.wire[other] != w.wire[rpc]
    ensures var handled := Handled(w, rpc, false);
      var lost := handled.(replies := handled.replies - {rpc});
      && rpc in handled.replies && handled.replies[rpc] == Ok(false)
      && Blocked(lost, w.daemon.due[0].id, w.daemon.due[0].slot)
      && Blocked(To(handled, Failed), w.daemon.due[0].id, w.daemon.due[0].slot)
  {
    assert w.sent[rpc] == w.wire[rpc];
    assert Reads(w.rows, w.daemon.due[0]);
  }

  lemma OneMore(holdMs: int, es: seq<Event>, e: Event, v: World)
    requires IsRun(holdMs, EMPTY, es) && After(holdMs, EMPTY, es) == v && Enabled(v, e)
    ensures IsRun(holdMs, EMPTY, es + [e]) && After(holdMs, EMPTY, es + [e]) == Step(holdMs, v, e)
  {
    assert (es + [e])[..|es + [e]| - 1] == es;
  }

  const DAILY := Row("owner", Interval(86400), Active, Some(0), 0)

  /** The first poll after the start finds the reminder due and claims it. */
  lemma FirstScan(holdMs: int) returns (es: seq<Event>)
    ensures IsRun(holdMs, EMPTY, es)
    ensures After(holdMs, EMPTY, es) ==
            EMPTY.(rows := map["r" := DAILY], daemon := Scanning(0, [Due("r", "owner", Interval(86400), 0)], Choose))
  {
    var due := [Due("r", "owner", Interval(86400), 0)];
    OneMore(holdMs, [], OfDaemon(Boot), EMPTY);
    assert Recovered(map[]) == map[];
    var w1 := EMPTY.(daemon := Idle);
    assert Step(holdMs, EMPTY, OfDaemon(Boot)) == w1;
    es := [] + [OfDaemon(Boot)];
    OneMore(holdMs, es, Around(Schedule("r", DAILY)), w1);
    var w2 := w1.(rows := map["r" := DAILY]);
    assert Step(holdMs, w1, Around(Schedule("r", DAILY))) == w2;
    es := es + [Around(Schedule("r", DAILY))];
    assert due[0].id == "r";
    OneMore(holdMs, es, OfDaemon(BeginScan(0, true, due)), w2);
    es := es + [OfDaemon(BeginScan(0, true, due))];
  }

  lemma FirstClaim(holdMs: int) returns (es: seq<Event>)
    ensures IsRun(holdMs, EMPTY, es)
    ensures After(holdMs, EMPTY, es) ==
            EMPTY.(rows := map["r" := DAILY.(status := Firing)],
                   daemon := Scanning(0, [Due("r", "owner", Interval(86400), 0)], Claimed))
  {
    es := FirstScan(holdMs);
    var w := After(holdMs, EMPTY, es);
    OneMore(holdMs, es, OnRow(ChooseRow), w);
    assert map["r" := DAILY]["r" := DAILY.(status := Firing)] == map["r" := DAILY.(status := Firing)];
    es := es + [OnRow(ChooseRow)];
  }

  /** And it happens: with the claim on record and its audit failing, the daemon rests on a firing row. */
  lemma StrandingHappens(holdMs: int) returns (es: seq<Event>)
    ensures IsRun(holdMs, EMPTY, es)
    ensures var w := After(holdMs, EMPTY, es);
      w.daemon.Idle? && "r" in w.stranded && "r" in w.rows && w.rows["r"].status.Firing?
  {
    es := FirstClaim(holdMs);
    OneMore(holdMs, es, OfDaemon(ScanThrows), After(holdMs, EMPTY, es));
    es := es + [OfDaemon(ScanThrows)];
  }

  /** The reminder is claimed and sent. */
  lemma FirstSend(holdMs: int) returns (es: seq<Event>)
    ensures IsRun(holdMs, EMPTY, es)
    ensures var w := After(holdMs, EMPTY, es);
      && Working(w.daemon) && w.daemon.stage == Awaiting(0) && w.daemon.due[0].id == "r" && w.daemon.due[0].slot == 0
      && w.wire == map[0 := Request(FireKey("r", 0), "owner", 0)] && w.receipts == map[]
  {
    es := FirstClaim(holdMs);
    OneMore(holdMs, es, OnRow(Send(0)), After(holdMs, EMPTY, es));
    es := es + [OnRow(Send(0))];
  }

  /** The same with an answer that is not lost but comes after the daemon has given up waiting for it. */
  lemma LateAnswerHappens(holdMs: int) returns (es: seq<Event>)
    ensures IsRun(holdMs, EMPTY, es)
    ensures var w := After(holdMs, EMPTY, es);
      Blocked(w, "r", 0) && 0 in w.replies && w.replies[0] == Ok(false)
  {
    es := FirstSend(holdMs);
    var w := After(holdMs, EMPTY, es);
    RunKeepsValid(holdMs, EMPTY, es);
    LosingTheAnswerBlocks(holdMs, w, 0);
    HandledAndLate(holdMs, es, w, 0);
    es := es + [Around(HubHandles(0, false))] + [OnRow(GiveUp)];
  }

  lemma HandledAndLate(holdMs: int, es: seq<Event>, w: World, rpc: nat)
    requires IsRun(holdMs, EMPTY, es) && After(holdMs, EMPTY, es) == w && rpc in w.wire
    requires Working(w.daemon) && w.daemon.stage == Awaiting(rpc)
    ensures var more := es + [Around(HubHandles(rpc, false))] + [OnRow(GiveUp)];
      IsRun(holdMs, EMPTY, more) && After(holdMs, EMPTY, more) == To(Handled(w, rpc, false), Failed)
  {
    OneMore(holdMs, es, Around(HubHandles(rpc, false)), w);
    OneMore(holdMs, es + [Around(HubHandles(rpc, false))], OnRow(GiveUp), Handled(w, rpc, false));
  }

  lemma HandledAndLost(holdMs: int, es: seq<Event>, w: World, rpc: nat)
    requires IsRun(holdMs, EMPTY, es) && After(holdMs, EMPTY, es) == w && rpc in w.wire
    ensures var handled := Handled(w, rpc, false);
      var more := es + [Around(HubHandles(rpc, false))] + [Around(LoseReply(rpc))];
      IsRun(holdMs, EMPTY, more) && After(holdMs, EMPTY, more) == handled.(replies := handled.replies - {rpc})
  {
    OneMore(holdMs, es, Around(HubHandles(rpc, false)), w);
    OneMore(holdMs, es + [Around(HubHandles(rpc, false))], Around(LoseReply(rpc)), Handled(w, rpc, false));
  }

  /** So it does happen: seven steps from an empty system lead to a reminder that has fired for the last time. */
  lemma LostAnswerHappens(holdMs: int) returns (es: seq<Event>)
    ensures IsRun(holdMs, EMPTY, es) && Blocked(After(holdMs, EMPTY, es), "r", 0)
  {
    es := FirstSend(holdMs);
    var w := After(holdMs, EMPTY, es);
    RunKeepsValid(holdMs, EMPTY, es);
    LosingTheAnswerBlocks(holdMs, w, 0);
    HandledAndLost(holdMs, es, w, 0);
    es := es + [Around(HubHandles(0, false))] + [Around(LoseReply(0))];
  }
}
