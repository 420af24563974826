/**
 * Firing reminders as a protocol that survives crashes: packages/self-reminder/src/scheduler.ts,
 * the boot recovery of packages/self-reminder/src/main.ts, and the hub's half of a send,
 * packages/hub/src/rpc/send.ts and packages/mailbox/src/accept.ts. Every database statement is one
 * step; between any two the daemon may die, and requests and answers may be lost or arrive late.
 * Slots are whole seconds and instants milliseconds.
 */
module Reminders {
  import opened Wrappers
  import Counting

  datatype Kind = Once | Interval(period: int) | Cron

  datatype Status = Active | Firing | Paused | Fired | Cancelled | Exhausted | Dead

  datatype Row = Row(agent: string, kind: Kind, status: Status, slot: Option<int>, fireCount: nat)

  /** What `fireKey` hashes: one fire, not one reminder. */
  datatype FireKey = FireKey(id: string, slot: int)

  /** A send. Its text names the instant it was fired at, so the digest the hub keeps does too. */
  datatype Request = Request(key: FireKey, to: string, firedAt: int)

  datatype Reply = Ok(duplicate: bool) | Failure

  datatype Decision = Replay | Skip

  /** A row as the due scan read it. */
  datatype Due = Due(id: string, agent: string, kind: Kind, slot: int)

  datatype Stage = Choose | Claimed | Awaiting(rpc: nat) | Delivered | Failed

  datatype Daemon = Down | Idle | Scanning(now: int, due: seq<Due>, stage: Stage)

  datatype World = World(
    rows: map<string, Row>,
    decisions: map<FireKey, Decision>,
    holds: set<FireKey>,
    daemon: Daemon,
    wire: map<nat, Request>,             // sent, neither handled nor lost
    replies: map<nat, Reply>,            // answered, not yet received
    receipts: map<FireKey, Request>,     // the hub's idempotency rows, with their digests
    messages: seq<Request>,              // the hub's messages
    sent: map<nat, Request>,             // history: every request ever sent
    fires: map<string, seq<int>>,        // history: the slots each row has moved past by firing
    replayed: set<Request>,              // history: every fire claimed while its decision was a replay
    stranded: set<string>)               // history: the rows given up by a throw since the daemon booted

  const DUE_LIMIT := 100

  function Sec(ms: int): int { ms / 1000 }

  function KeyOf(d: Due): FireKey { FireKey(d.id, d.slot) }

  /** The reminder goes to its owner, keyed on the fire. */
  function RequestOf(d: Due, now: int): Request { Request(KeyOf(d), d.agent, now) }

  // ----- The due scan -----

  predicate IsDue(row: Row, now: int) { row.status.Active? && row.slot.Some? && row.slot.value <= Sec(now) }

  predicate Reads(rows: map<string, Row>, d: Due) {
    d.id in rows && rows[d.id].slot == Some(d.slot) && rows[d.id].kind == d.kind && rows[d.id].agent == d.agent
  }

  /** The oldest due rows, each once, at most a hundred. */
  ghost predicate IsDueList(rows: map<string, Row>, now: int, due: seq<Due>) {
    && |due| <= DUE_LIMIT
    && (forall i :: 0 <= i < |due| ==> Reads(rows, due[i]) && IsDue(rows[due[i].id], now))
    && (forall i, j :: 0 <= i < j < |due| ==> due[i].id != due[j].id && due[i].slot <= due[j].slot)
    && (forall id :: id in rows && IsDue(rows[id], now) ==>
          (exists i :: 0 <= i < |due| && due[i].id == id)
          || (|due| == DUE_LIMIT && forall i :: 0 <= i < |due| ==> due[i].slot <= rows[id].slot.value))
  }

  /** Only a one-shot past the hold window waits, and only a replay of that very slot lets it through. */
  predicate ShouldHold(holdMs: int, decisions: map<FireKey, Decision>, d: Due, now: int) {
    d.kind.Once? && now - d.slot * 1000 > holdMs && !(KeyOf(d) in decisions && decisions[KeyOf(d)].Replay?)
  }

  // ----- Where a row goes after it has fired -----

  /** The next point of the grid slot, slot + period, ... that is strictly after `now`. */
  function NextInterval(slot: int, period: int, now: int): int
    requires period > 0
  {
    slot + ((Sec(now) - slot) / period + 1) * period
  }

  /** What `nextFire` may come to: None when the schedule cannot be read. */
  predicate MayBeNext(kind: Kind, slot: int, now: int, next: Option<int>) {
    match next
    case None => true
    case Some(t) =>
      && t > Sec(now)
      && (kind.Interval? ==> kind.period > 0 && slot <= Sec(now) && t == NextInterval(slot, kind.period, now))
  }

  /** `advanceOrComplete`. */
  function Advanced(row: Row, next: Option<int>): Row {
    if row.kind.Once? then row.(status := Fired, fireCount := row.fireCount + 1, slot := None)
    else if next.None? then row.(status := Dead)
    else row.(status := Active, fireCount := row.fireCount + 1, slot := next)
  }

  // ----- The hub -----

  /** What the hub answers a send it does not refuse for another reason. */
  function Answer(receipts: map<FireKey, Request>, r: Request): Reply {
    if r.key !in receipts then Ok(false)
    else if receipts[r.key] == r then Ok(true)
    else Failure
  }

  function Handled(w: World, rpc: nat, refused: bool): World
    requires rpc in w.wire
  {
    var r := w.wire[rpc];
    var stores := !refused && r.key !in w.receipts;
    w.(wire := w.wire - {rpc},
       replies := w.replies[rpc := if refused then Failure else Answer(w.receipts, r)],
       receipts := if stores then w.receipts[r.key := r] else w.receipts,
       messages := if stores then w.messages + [r] else w.messages)
  }

  // ----- Steps -----

  /** What happens around the daemon: reminders come and go, operators decide, the hub answers, the network loses. */
  datatype Elsewhere =
    | Schedule(id: string, row: Row)
    | Cancel(id: string)
    | Decide(key: FireKey, decision: Decision)
    | HubHandles(rpc: nat, refused: bool)
    | LoseRequest(rpc: nat)
    | LoseReply(rpc: nat)

  /** The steps of a scan on the row at its head. */
  datatype RowStep =
    | ChooseRow
    | Send(rpc: nat)
    | SendFails
    | Receive
    | GiveUp
    | Advance(next: Option<int>)
    | AdvanceThrows
    | Reactivate

  datatype DaemonStep =
    | BeginScan(now: int, hubReady: bool, due: seq<Due>)
    | OverlappingPoll
    | EndScan
    | ScanThrows
    | Crash
    | Boot

  datatype Event = Around(elsewhere: Elsewhere) | OnRow(step: RowStep) | OfDaemon(act: DaemonStep)

  predicate Working(daemon: Daemon) { daemon.Scanning? && !daemon.stage.Choose? && daemon.due != [] }

  predicate At(w: World, stage: Stage) { w.daemon.Scanning? && w.daemon.stage == stage && w.daemon.due != [] }

  ghost predicate Enabled(w: World, e: Event) {
    match e
    case Around(x) => MayHappen(w, x)
    case OnRow(x) => MayFollow(w, x)
    case OfDaemon(x) => MayAct(w, x)
  }

  predicate MayHappen(w: World, e: Elsewhere) {
    match e
    case Schedule(id, row) => id !in w.rows && row.status.Active? && row.slot.Some? && row.fireCount == 0
    case Cancel(id) => id in w.rows && (w.rows[id].status.Active? || w.rows[id].status.Paused?)
    case Decide(_, _) => true
    case HubHandles(rpc, _) => rpc in w.wire
    case LoseRequest(rpc) => rpc in w.wire
    case LoseReply(rpc) => rpc in w.replies
  }

  predicate MayFollow(w: World, e: RowStep) {
    match e
    case ChooseRow => At(w, Choose)
    case Send(rpc) => At(w, Claimed) && rpc !in w.sent
    case SendFails => At(w, Claimed)
    case Receive => Working(w.daemon) && w.daemon.stage.Awaiting? && w.daemon.stage.rpc in w.replies
    case GiveUp => Working(w.daemon) && w.daemon.stage.Awaiting?
    case Advance(next) => At(w, Delivered) && MayBeNext(w.daemon.due[0].kind, w.daemon.due[0].slot, w.daemon.now, next)
    case AdvanceThrows => At(w, Delivered)
    case Reactivate => At(w, Failed)
  }

  /**
   * Where a statement that throws ends the poll: before the `try` around the send, the audit of the
   * claim included, and inside its `catch`.
   */
  predicate MayThrow(daemon: Daemon) {
    daemon.Scanning? && (daemon.stage.Choose? || daemon.stage.Claimed? || daemon.stage.Failed?)
  }

  ghost predicate MayAct(w: World, e: DaemonStep) {
    match e
    case BeginScan(now, _, due) => w.daemon.Idle? && IsDueList(w.rows, now, due)
    case OverlappingPoll => w.daemon.Scanning?
    case EndScan => w.daemon.Scanning? && w.daemon.stage.Choose? && w.daemon.due == []
    case ScanThrows => MayThrow(w.daemon)
    case Crash => !w.daemon.Down?
    case Boot => w.daemon.Down?
  }

  function To(w: World, stage: Stage): World
    requires w.daemon.Scanning?
  {
    w.(daemon := w.daemon.(stage := stage))
  }

  /** On to the next due row. */
  function Pop(w: World): World
    requires w.daemon.Scanning? && w.daemon.due != []
  {
    w.(daemon := w.daemon.(due := w.daemon.due[1..], stage := Choose))
  }

  function Recovered(rows: map<string, Row>): map<string, Row> {
    map id | id in rows :: if rows[id].status.Firing? then rows[id].(status := Active) else rows[id]
  }

  /** A claim notes whether an operator's replay stands behind it at that moment. */
  function Noted(w: World, d: Due): set<Request>
    requires w.daemon.Scanning?
  {
    if KeyOf(d) in w.decisions && w.decisions[KeyOf(d)].Replay?
      then w.replayed + {RequestOf(d, w.daemon.now)} else w.replayed
  }

  function Chosen(holdMs: int, w: World): World
    requires w.daemon.Scanning? && w.daemon.due != []
  {
    var d := w.daemon.due[0];
    if ShouldHold(holdMs, w.decisions, d, w.daemon.now) then
      w.(holds := if KeyOf(d) in w.decisions then w.holds else w.holds + {KeyOf(d)},
         daemon := w.daemon.(due := w.daemon.due[1..], stage := Choose))
    else if d.id in w.rows && w.rows[d.id].status.Active? then
      w.(rows := w.rows[d.id := w.rows[d.id].(status := Firing)], replayed := Noted(w, d),
         daemon := w.daemon.(stage := Claimed))
    else Pop(w)
  }

  function Fire(w: World, d: Due, next: Option<int>): World
    requires d.id in w.rows
  {
    w.(rows := w.rows[d.id := Advanced(w.rows[d.id], next)],
       fires := w.fires[d.id := (if d.id in w.fires then w.fires[d.id] else []) + [d.slot]])
  }

  function Happened(w: World, e: Elsewhere): World
    requires MayHappen(w, e)
  {
    match e
    case Schedule(id, row) => w.(rows := w.rows[id := row])
    case Cancel(id) => w.(rows := w.rows[id := w.rows[id].(status := Cancelled)])
    case Decide(key, decision) => w.(decisions := w.decisions[key := decision])
    case HubHandles(rpc, refused) => Handled(w, rpc, refused)
    case LoseRequest(rpc) => w.(wire := w.wire - {rpc})
    case LoseReply(rpc) => w.(replies := w.replies - {rpc})
  }

  function Sent(w: World, rpc: nat): World
    requires Working(w.daemon)
  {
    var r := RequestOf(w.daemon.due[0], w.daemon.now);
    To(w.(wire := w.wire[rpc := r], sent := w.sent[rpc := r]), Awaiting(rpc))
  }

  function Reactivated(w: World): World
    requires w.daemon.Scanning? && w.daemon.due != []
  {
    var d := w.daemon.due[0];
    Pop(if d.id in w.rows then w.(rows := w.rows[d.id := w.rows[d.id].(status := Active)]) else w)
  }

  function Followed(holdMs: int, w: World, e: RowStep): World
    requires MayFollow(w, e)
  {
    match e
    case ChooseRow => Chosen(holdMs, w)
    case Send(rpc) => Sent(w, rpc)
    case SendFails => To(w, Failed)
    case Receive => To(w, if w.replies[w.daemon.stage.rpc].Ok? then Delivered else Failed)
    case GiveUp => To(w, Failed)
    case Advance(next) => if w.daemon.due[0].id in w.rows then Pop(Fire(w, w.daemon.due[0], next)) else Pop(w)
    case AdvanceThrows => To(w, Failed)
    case Reactivate => Reactivated(w)
  }

  /** The poll is over and the row it was at stays as it is. */
  function Thrown(w: World): World {
    w.(daemon := Idle, stranded := if Working(w.daemon) then w.stranded + {w.daemon.due[0].id} else w.stranded)
  }

  ghost function Acted(w: World, e: DaemonStep): World
    requires MayAct(w, e)
  {
    match e
    case BeginScan(now, hubReady, due) => if hubReady && due != [] then w.(daemon := Scanning(now, due, Choose)) else w
    case OverlappingPoll => w
    case EndScan => w.(daemon := Idle)
    case ScanThrows => Thrown(w)
    case Crash => w.(daemon := Down)
    case Boot => w.(daemon := Idle, rows := Recovered(w.rows), stranded := {})
  }

  ghost function Step(holdMs: int, w: World, e: Event): World
    requires Enabled(w, e)
  {
    match e
    case Around(x) => Happened(w, x)
    case OnRow(x) => Followed(holdMs, w, x)
    case OfDaemon(x) => Acted(w, x)
  }

  const EMPTY := World(map[], map[], {}, Down, map[], map[], map[], [], map[], map[], {}, {})

  // ----- What every step keeps -----

  /** One message per key, and the idempotency rows are exactly the messages. */
  ghost predicate HubSound(receipts: map<FireKey, Request>, messages: seq<Request>) {
    && (forall i :: 0 <= i < |messages| ==> messages[i].key in receipts && receipts[messages[i].key] == messages[i])
    && (forall i, j :: 0 <= i < j < |messages| ==> messages[i].key != messages[j].key)
    && (forall k :: k in receipts ==> receipts[k].key == k && receipts[k] in messages)
  }

  /** What is in transit was sent, and an acceptance means the message is there. */
  ghost predicate TransitSound(wire: map<nat, Request>, replies: map<nat, Reply>, sent: map<nat, Request>,
                               receipts: map<FireKey, Request>) {
    && (forall rpc :: rpc in wire ==> rpc in sent && sent[rpc] == wire[rpc])
    && (forall rpc :: rpc in replies ==> rpc in sent)
    && (forall rpc :: rpc in replies && replies[rpc].Ok? ==> sent[rpc].key in receipts)
  }

  /** The rows still to come are as the scan read them. */
  ghost predicate QueueSound(rows: map<string, Row>, due: seq<Due>, now: int) {
    && (forall i :: 0 <= i < |due| ==> Reads(rows, due[i]) && due[i].slot <= Sec(now))
    && (forall i, j :: 0 <= i < j < |due| ==> due[i].id != due[j].id)
  }

  /** A send awaited is the row's own, and a delivered row has its message. */
  ghost predicate StageSound(due: seq<Due>, stage: Stage, sent: map<nat, Request>, receipts: map<FireKey, Request>) {
    && (!stage.Choose? ==> due != [])
    && (stage.Awaiting? ==> stage.rpc in sent && sent[stage.rpc].key == KeyOf(due[0]))
    && (stage.Delivered? ==> KeyOf(due[0]) in receipts)
  }

  ghost predicate ScanSound(rows: map<string, Row>, daemon: Daemon, sent: map<nat, Request>,
                            receipts: map<FireKey, Request>) {
    daemon.Scanning? ==>
      QueueSound(rows, daemon.due, daemon.now) && StageSound(daemon.due, daemon.stage, sent, receipts)
  }

  /** A row is firing exactly while the scan works on it, once a throw has given it up, or since the daemon died. */
  ghost predicate FiringHeld(rows: map<string, Row>, daemon: Daemon, stranded: set<string>) {
    && (forall id :: id in rows && rows[id].status.Firing? ==>
          daemon.Down? || id in stranded || (Working(daemon) && daemon.due[0].id == id))
    && (forall id :: id in stranded ==> id in rows && rows[id].status.Firing?)
    && (Working(daemon) ==> daemon.due[0].id in rows && rows[daemon.due[0].id].status.Firing?
                            && daemon.due[0].id !in stranded)
  }

  ghost predicate Increasing(s: seq<int>) { forall i, j :: 0 <= i < j < |s| ==> s[i] < s[j] }

  function FiresOf(fires: map<string, seq<int>>, id: string): seq<int> { if id in fires then fires[id] else [] }

  /** What a row has been through: increasing slots, all behind its own, each counted but a last that killed it. */
  ghost predicate RowHistory(row: Row, past: seq<int>) {
    && Increasing(past)
    && (row.slot.Some? && !row.status.Dead? ==> forall i :: 0 <= i < |past| ==> past[i] < row.slot.value)
    && |past| == row.fireCount + (if row.status.Dead? then 1 else 0)
    && (row.slot.None? <==> row.status.Fired?)
  }

  ghost predicate HistorySound(rows: map<string, Row>, fires: map<string, seq<int>>) {
    && (forall id :: id in rows ==> RowHistory(rows[id], FiresOf(fires, id)))
    && (forall id :: id in fires ==> id in rows)
  }

  /** Every slot moved past by firing has its message. */
  ghost predicate FiresStored(fires: map<string, seq<int>>, receipts: map<FireKey, Request>) {
    forall id, i :: id in fires && 0 <= i < |fires[id]| ==> FireKey(id, fires[id][i]) in receipts
  }

  /** The request is its reminder's own, and a late one-shot was claimed under a replay of that very slot. */
  ghost predicate Permitted(holdMs: int, rows: map<string, Row>, replayed: set<Request>, r: Request) {
    && r.key.id in rows && rows[r.key.id].agent == r.to
    && (rows[r.key.id].kind.Once? && r.firedAt - r.key.slot * 1000 > holdMs ==> r in replayed)
  }

  /** Nothing is sent, stored or about to be sent that was not permitted. */
  ghost predicate HoldSound(holdMs: int, rows: map<string, Row>, replayed: set<Request>, sent: map<nat, Request>,
                            receipts: map<FireKey, Request>, daemon: Daemon) {
    && (forall rpc :: rpc in sent ==> Permitted(holdMs, rows, replayed, sent[rpc]))
    && (forall k :: k in receipts ==> Permitted(holdMs, rows, replayed, receipts[k]))
    && (Working(daemon) ==> Permitted(holdMs, rows, replayed, RequestOf(daemon.due[0], daemon.now)))
  }

  ghost predicate Valid(holdMs: int, w: World) {
    && HubSound(w.receipts, w.messages) && TransitSound(w.wire, w.replies, w.sent, w.receipts)
    && ScanSound(w.rows, w.daemon, w.sent, w.receipts) && FiringHeld(w.rows, w.daemon, w.stranded)
    && HistorySound(w.rows, w.fires) && FiresStored(w.fires, w.receipts)
    && HoldSound(holdMs, w.rows, w.replayed, w.sent, w.receipts, w.daemon)
  }

  // ----- Lemmas on pieces -----

  /** What the due query is for: every active row whose slot has come, oldest first, or the oldest hundred of them. */
  lemma DueListIsComplete(rows: map<string, Row>, now: int, due: seq<Due>, id: string)
    requires IsDueList(rows, now, due)
    ensures (exists i :: 0 <= i < |due| && due[i].id == id) ==>
      id in rows && rows[id].status == Active && rows[id].slot.Some? && rows[id].slot.value * 1000 <= now
    ensures id in rows && rows[id].status == Active && rows[id].slot.Some? && rows[id].slot.value * 1000 <= now ==>
      (exists i :: 0 <= i < |due| && due[i].id == id)
      || (|due| == 100 && forall i :: 0 <= i < |due| ==> due[i].slot <= rows[id].slot.value)
    ensures forall i, j :: 0 <= i < j < |due| ==> due[i].slot <= due[j].slot && due[i].id != due[j].id
  {
    if i :| 0 <= i < |due| && due[i].id == id { assert IsDue(rows[due[i].id], now); }
  }

  /** Coming up makes active what was firing, and changes nothing else of any row. */
  lemma RecoveredIs(rows: map<string, Row>, id: string)
    ensures id in Recovered(rows) <==> id in rows
    ensures id in rows ==>
      Recovered(rows)[id] == rows[id].(status := if rows[id].status == Firing then Active else rows[id].status)
  {
  }

  /** Whether the fire at the head goes out: it repeats, or is within the hold window, or its replay is decided. */
  lemma ClaimedIff(holdMs: int, w: World)
    requires At(w, Choose) && w.daemon.due[0].id in w.rows && w.rows[w.daemon.due[0].id].status.Active?
    ensures var d, now := w.daemon.due[0], w.daemon.now;
      var key := FireKey(d.id, d.slot);
      Chosen(holdMs, w).daemon == w.daemon.(stage := Claimed) <==>
        d.kind != Once || now - d.slot * 1000 <= holdMs || (key in w.decisions && w.decisions[key] == Replay)
  {
    var d := w.daemon.due[0];
    if ShouldHold(holdMs, w.decisions, d, w.daemon.now) {
      HeldIsUntouched(holdMs, w);
    } else {
      ClaimedIsFiring(holdMs, w);
    }
  }

  /** A one-shot further back than the window, not to be replayed, stays as it is and is held unless decided. */
  lemma HeldIsUntouched(holdMs: int, w: World)
    requires At(w, Choose)
    requires var d := w.daemon.due[0];
      var key := FireKey(d.id, d.slot);
      && d.kind == Once && w.daemon.now - d.slot * 1000 > holdMs
      && (key in w.decisions ==> w.decisions[key] == Skip)
    ensures var d, v := w.daemon.due[0], Chosen(holdMs, w);
      var key := FireKey(d.id, d.slot);
      && v.rows == w.rows && v.daemon == w.daemon.(due := w.daemon.due[1..], stage := Choose)
      && v.holds == w.holds + (if key in w.decisions then {} else {key})
  {
  }

  /** Any other due row, if it is still active, is firing and about to be sent. */
  lemma ClaimedIsFiring(holdMs: int, w: World)
    requires At(w, Choose) && w.daemon.due[0].id in w.rows && w.rows[w.daemon.due[0].id].status.Active?
    requires var d := w.daemon.due[0];
      var key := FireKey(d.id, d.slot);
      d.kind != Once || w.daemon.now - d.slot * 1000 <= holdMs || (key in w.decisions && w.decisions[key] == Replay)
    ensures var d, v := w.daemon.due[0], Chosen(holdMs, w);
      && v.rows == w.rows[d.id := w.rows[d.id].(status := Firing)]
      && v.daemon == w.daemon.(stage := Claimed) && v.holds == w.holds
  {
  }

  /** The next slot of an interval is the first point of its grid after now, so never behind the slot it left. */
  lemma NextIntervalIsLeast(slot: int, period: int, now: int, k: int)
    requires period > 0 && slot <= Sec(now)
    ensures NextInterval(slot, period, now) > Sec(now) >= slot
    ensures (NextInterval(slot, period, now) - slot) % period == 0
    ensures slot + k * period > Sec(now) ==> NextInterval(slot, period, now) <= slot + k * period
  {
    var q := (Sec(now) - slot) / period;
    assert Sec(now) - slot == q * period + (Sec(now) - slot) % period;
    assert (q + 1) * period == q * period + period;
    ModOfMultiple(q + 1, period);
    if slot + k * period > Sec(now) {
      assert k > q by {
        if k <= q { Counting.MulGrows(k, q, period); }
      }
      Counting.MulGrows(q + 1, k, period);
    }
  }

  lemma ModOfMultiple(a: int, b: int)
    requires b > 0
    ensures (a * b) % b == 0
  {
    assert a * b == b * a + 0;
    DivUnique(a * b, b, a, 0);
  }

  lemma DivUnique(x: int, b: int, q: int, r: int)
    requires b > 0 && x == b * q + r && 0 <= r < b
    ensures x % b == r
  {
    var d := x / b - q;
    assert b * d == r - x % b;
    if d >= 1 { Counting.MulGrows(1, d, b); } else if d <= -1 { Counting.MulGrows(d, -1, b); }
  }

  /** `${id}\0${slot}` names one fire: a slot is always nineteen characters. */
  lemma FireTextIsUnique(id: string, slot: string, jd: string, other: string)
    requires |slot| == 19 && |other| == 19 && id + ("\0" + slot) == jd + ("\0" + other)
    ensures id == jd && slot == other
  {
    var s, t := id + ("\0" + slot), jd + ("\0" + other);
    assert s[..|s| - 20] == id && t[..|t| - 20] == jd;
    assert s[|s| - 19..] == slot && t[|t| - 19..] == other;
  }
}
