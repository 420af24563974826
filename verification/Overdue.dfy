/**
 * Deciding overdue reminders: packages/http/src/reminder-overdue.ts over the tables that
 * packages/self-reminder/src/scheduler.ts writes holds into and reads decisions from.
 */
module Overdue {
  import opened Wrappers
  import opened Slots
  import Like
  import Pagination
  import RawParams
  import SlotOrder
  import opened Texts

  datatype Reminder = Reminder(agent: string, status: string)

  datatype Made = Made(decision: string, approvalRef: string, decidedAt: string, decidedBy: string)

  datatype Held = Held(
    reminderId: string, agentId: string, scheduledAt: string, heldSince: string, overdueMs: Option<int>,
    status: Option<string>)

  datatype Code = InvalidDecision | EmptyApprovalRef | NoSuchHold

  datatype Answer = Recorded(reminderId: string, scheduledAt: string, made: Made) | Refusal(code: Code)

  type Decisions = map<(string, string), Made>

  // ----- The list -----

  /** `key LIKE 'overdue_hold:%'`, where the underscore is a wildcard. */
  predicate IsHold(key: string) { Like.Like(HOLD_PREFIX + "%", key) }

  /** The holds as the statement returns them, ordered by the text of the time they were recorded. */
  ghost predicate IsHoldList(health: map<string, string>, keys: seq<string>) {
    && (forall i :: 0 <= i < |keys| ==> keys[i] in health && IsHold(keys[i]))
    && (forall i, j :: 0 <= i < j < |keys| ==> keys[i] != keys[j] && !Pagination.Less(health[keys[j]], health[keys[i]]))
    && (forall key :: key in health && IsHold(key) ==> key in keys)
  }

  /** The reminder and slot of a key. */
  function FireOf(key: string): Option<(string, string)> {
    if |key| < |HOLD_PREFIX| then None else Split(key[|HOLD_PREFIX|..], |key| - |HOLD_PREFIX|)
  }

  function Entry(id: string, slot: string, value: string, reminders: map<string, Reminder>,
                 other: string -> Option<Instant>): Held
  {
    var heldAt, slotAt := AsDate(value, other), AsDate(slot, other);
    Held(id, if id in reminders then reminders[id].agent else "", Published(slot, other), Published(value, other),
         if heldAt.Some? && slotAt.Some? then Some(TimeOf(heldAt.value) - TimeOf(slotAt.value)) else None,
         if id in reminders then Some(reminders[id].status) else None)
  }

  /** The key is a hold nobody has decided. */
  predicate IsOpen(decisions: Decisions, key: string) { FireOf(key).Some? && FireOf(key).value !in decisions }

  /** What one key of the select puts on the list. */
  function Line(health: map<string, string>, decisions: Decisions, reminders: map<string, Reminder>,
                other: string -> Option<Instant>, key: string): seq<Held> {
    if IsOpen(decisions, key) && key in health
    then [Entry(FireOf(key).value.0, FireOf(key).value.1, health[key], reminders, other)]
    else []
  }

  /** One key after another. */
  function Collect(line: string -> seq<Held>, keys: seq<string>): seq<Held> {
    if keys == [] then [] else Collect(line, keys[..|keys| - 1]) + line(keys[|keys| - 1])
  }

  function Listed(health: map<string, string>, decisions: Decisions, reminders: map<string, Reminder>,
                  other: string -> Option<Instant>, keys: seq<string>): seq<Held> {
    Collect(key => Line(health, decisions, reminders, other, key), keys)
  }

  // ----- The decision -----

  /** The reference says something after the prefix. */
  predicate Reasoned(prefix: string, approvalRef: string) {
    && |prefix| <= |approvalRef| && approvalRef[..|prefix|] == prefix
    && exists k :: |prefix| <= k < |approvalRef| && !RawParams.IsJsSpace(approvalRef[k])
  }

  predicate IsDecision(decision: string) { decision == "replay" || decision == "skip" }

  lemma ReasonedIff(prefix: string, approvalRef: string)
    ensures Reasoned(prefix, approvalRef) <==>
            exists reason :: approvalRef == prefix + reason && exists c :: c in reason && !RawParams.IsJsSpace(c)
  {
    if Reasoned(prefix, approvalRef) {
      var reason := approvalRef[|prefix|..];
      var k :| |prefix| <= k < |approvalRef| && !RawParams.IsJsSpace(approvalRef[k]);
      assert reason[k - |prefix|] in reason && approvalRef == prefix + reason;
    }
    if reason :| approvalRef == prefix + reason && exists c :: c in reason && !RawParams.IsJsSpace(c) {
      var c :| c in reason && !RawParams.IsJsSpace(c);
      var k :| 0 <= k < |reason| && reason[k] == c;
      assert approvalRef[|prefix| + k] == c;
    }
  }

  lemma {:induction false} TrimmedAway(s: string)
    ensures RawParams.DropSpace(s) == "" <==> forall k :: 0 <= k < |s| ==> RawParams.IsJsSpace(s[k])
  {
    if s != "" && RawParams.IsJsSpace(s[0]) {
      TrimmedAway(s[1..]);
      assert forall k :: 1 <= k < |s| ==> s[k] == s[1..][k - 1];
    }
  }

  class Desk {
    const other: string -> Option<Instant>
    const prefix: string
    var health: map<string, string>
    var decisions: Decisions
    var reminders: map<string, Reminder>

    constructor (other: string -> Option<Instant>, prefix: string)
      ensures this.other == other && this.prefix == prefix && health == map[] && decisions == map[]
      ensures reminders == map[]
    {
      this.other, this.prefix := other, prefix;
      health, decisions, reminders := map[], map[], map[];
    }

    method ListHeldOverdue(keys: seq<string>) returns (out: seq<Held>)
      requires IsHoldList(health, keys)
      ensures out == Listed(health, decisions, reminders, other, keys)
    {
      out := [];
      for i := 0 to |keys|
        invariant out == Listed(health, decisions, reminders, other, keys[..i])
      {
        assert keys[..i + 1][..i] == keys[..i];
        var parsed := FireOf(keys[i]);
        if parsed.Some? && parsed.value !in decisions {
          out := out + [Entry(parsed.value.0, parsed.value.1, health[keys[i]], reminders, other)];
        }
      }
      assert keys[..|keys|] == keys;
    }

    /** Each refusal has its exact cause and changes nothing; anything else is on record under the stored slot. */
    method RecordOverdueDecision(reminderId: string, scheduledAt: string, decision: string, approvalRef: string,
                                 decidedBy: string, decidedAt: string) returns (r: Answer)
      modifies `decisions
      ensures r == Refusal(InvalidDecision) <==> decision != "replay" && decision != "skip"
      ensures r == Refusal(EmptyApprovalRef) <==> IsDecision(decision) && !Reasoned(prefix, approvalRef)
      ensures IsDecision(decision) ==>
        (r != Refusal(EmptyApprovalRef) <==>
         exists reason :: approvalRef == prefix + reason && exists c :: c in reason && !RawParams.IsJsSpace(c))
      ensures r == Refusal(NoSuchHold) <==>
              && IsDecision(decision) && Reasoned(prefix, approvalRef)
              && HoldKey(reminderId, StoredSlot(scheduledAt, other)) !in health
      ensures r.Refusal? ==> decisions == old(decisions)
      ensures r.Recorded? ==>
                var slot, made := StoredSlot(scheduledAt, other), Made(decision, approvalRef, decidedAt, decidedBy);
                && r == Recorded(reminderId, Published(slot, other), made)
                && decisions == old(decisions)[(reminderId, slot) := made]
    {
      if !IsDecision(decision) {
        return Refusal(InvalidDecision);
      }
      ReasonedIff(prefix, approvalRef);
      if |approvalRef| < |prefix| || approvalRef[..|prefix|] != prefix {
        return Refusal(EmptyApprovalRef);
      }
      TrimmedAway(approvalRef[|prefix|..]);
      assert forall k :: |prefix| <= k < |approvalRef| ==> approvalRef[k] == approvalRef[|prefix|..][k - |prefix|];
      if RawParams.DropSpace(approvalRef[|prefix|..]) == "" {
        return Refusal(EmptyApprovalRef);
      }
      var slot := StoredSlot(scheduledAt, other);
      if HoldKey(reminderId, slot) !in health {
        return Refusal(NoSuchHold);
      }
      var made := Made(decision, approvalRef, decidedAt, decidedBy);
      decisions := decisions[(reminderId, slot) := made];
      return Recorded(reminderId, Published(slot, other), made);
    }
  }

  /**
   * What the list says of a hold whose slot and record are dates: both in ISO text, the milliseconds
   * from the one to the other, and the reminder's owner and status, if there still is one.
   */
  lemma EntryIs(id: string, slot: string, value: string, held: Instant, due: Instant, reminders: map<string, Reminder>,
                other: string -> Option<Instant>)
    requires AsDate(value, other) == Some(held) && AsDate(slot, other) == Some(due)
    ensures var h := Entry(id, slot, value, reminders, other);
      && h.reminderId == id && h.heldSince == Iso(held) && h.scheduledAt == Iso(due)
      && h.overdueMs == Some(TimeOf(held) - TimeOf(due))
      && (id in reminders ==> h.agentId == reminders[id].agent && h.status == Some(reminders[id].status))
      && (id !in reminders ==> h.agentId == "" && h.status == None)
  {
  }

  lemma IsoOfSlot(slot: string)
    requires IsStored(slot)
    ensures IsInstant(Stamp(slot, "000")) && TimeOf(Stamp(slot, "000")) == 1000 * SecondsOf(slot)
    ensures Iso(Stamp(slot, "000")) == slot[..10] + "T" + slot[11..] + ".000Z"
  {
    Regroup(slot[..10] + "T" + slot[11..], ".", "000", "Z");
  }

  lemma Regroup(a: string, b: string, c: string, d: string)
    ensures b + c + d == ".000Z" ==> a + b + c + d == a + ".000Z"
  {
    assert a + b + c + d == a + (b + c + d);
  }

  lemma SlotInstant(slot: string, other: string -> Option<Instant>) returns (due: Instant)
    requires IsStored(slot)
    ensures AsDate(slot, other) == Some(due) && due.second == slot && TimeOf(due) == 1000 * SecondsOf(slot)
    ensures Iso(due) == slot[..10] + "T" + slot[11..] + ".000Z"
  {
    StoredIsDate(slot, other);
    IsoOfSlot(slot);
    due := Stamp(slot, "000");
  }

  /** A stored slot is overdue by less than nothing only when it was held before its own second. */
  lemma OverdueUnlessEarly(id: string, slot: string, i: Instant, reminders: map<string, Reminder>,
                           other: string -> Option<Instant>)
    requires IsStored(slot)
    ensures var h := Entry(id, slot, Iso(i), reminders, other);
      && h.scheduledAt == slot[..10] + "T" + slot[11..] + ".000Z" && h.overdueMs.Some?
      && (h.overdueMs.value >= 0 <==> !Pagination.Less(i.second, slot))
  {
    var due := SlotInstant(slot, other);
    IsoIsReadBack(i, other);
    EntryIs(id, slot, Iso(i), i, due, reminders, other);
    SlotOrder.TextOrderIsTimeOrder(i.second, slot);
    assert IsDigit(i.millis[0]) && IsDigit(i.millis[1]) && IsDigit(i.millis[2]);
  }

  // ----- The key select -----

  predicate Looks(p: string, t: string) {
    |p| <= |t| && forall k :: 0 <= k < |p| ==> p[k] == '_' || Like.Fold(p[k]) == Like.Fold(t[k])
  }

  lemma {:induction false} LikePrefix(p: string, t: string)
    requires forall k :: 0 <= k < |p| ==> p[k] != '%' && p[k] != '\\'
    ensures Like.Like(p + "%", t) <==> Looks(p, t)
    decreases |p|
  {
    if p == "" {
      assert p + "%" == "%";
      Like.AnythingMatchesPercent(t);
    } else {
      assert (p + "%")[0] == p[0] && (p + "%")[1..] == p[1..] + "%";
      if t != "" {
        LikePrefix(p[1..], t[1..]);
        LooksOn(p, t);
      }
    }
  }

  lemma LooksOn(p: string, t: string)
    requires p != "" && t != ""
    ensures Looks(p, t) <==> (p[0] == '_' || Like.Fold(p[0]) == Like.Fold(t[0])) && Looks(p[1..], t[1..])
  {
    if Looks(p[1..], t[1..]) {
      assert forall k :: 1 <= k < |p| ==> p[k] == p[1..][k - 1] && t[k] == t[1..][k - 1];
    }
  }

  lemma HoldKeysAreSelected(id: string, slot: string)
    ensures IsHold(HoldKey(id, slot))
  {
    LikePrefix(HOLD_PREFIX, HoldKey(id, slot));
  }

  // ----- From the list to the decision and back -----

  lemma StoredIsSlotText(slot: string)
    requires IsStored(slot)
    ensures IsSlotText(slot)
  {
    assert slot[..19] == slot && slot[19..] == "";
  }

  lemma FireOfHold(id: string, slot: string)
    requires IsSlotText(slot) && OneLine(id)
    ensures FireOf(HoldKey(id, slot)) == Some((id, slot))
  {
    FireOfPrefixed(HOLD_PREFIX, id, slot);
  }

  /** Reading a key cuts as many characters off as the prefix has, whatever they are. */
  lemma FireAfterPrefix(prefix: string, rest: string)
    requires |prefix| == |HOLD_PREFIX|
    ensures FireOf(prefix + rest) == Split(rest, |rest|)
  {
    assert (prefix + rest)[|prefix|..] == rest;
  }

  lemma FireOfPrefixed(prefix: string, id: string, slot: string)
    requires IsSlotText(slot) && OneLine(id) && |prefix| == |HOLD_PREFIX|
    ensures FireOf(prefix + (id + (":" + slot))) == Some((id, slot))
  {
    FireAfterPrefix(prefix, id + (":" + slot));
    SplitFinds(id, slot, |id| + 1 + |slot|);
  }

  lemma {:induction false} CollectIff(line: string -> seq<Held>, keys: seq<string>, h: Held)
    ensures h in Collect(line, keys) <==> exists i :: 0 <= i < |keys| && h in line(keys[i])
  {
    if keys != [] {
      var before := keys[..|keys| - 1];
      CollectIff(line, before, h);
      assert forall i :: 0 <= i < |before| ==> keys[i] == before[i];
    }
  }

  lemma ListedIff(health: map<string, string>, decisions: Decisions, reminders: map<string, Reminder>,
                  other: string -> Option<Instant>, keys: seq<string>, h: Held)
    ensures h in Listed(health, decisions, reminders, other, keys) <==>
            exists i :: 0 <= i < |keys| && h in Line(health, decisions, reminders, other, keys[i])
  {
    CollectIff(key => Line(health, decisions, reminders, other, key), keys, h);
  }

  /** The time of record is an instant in ISO text, as the scheduler puts it. */
  ghost predicate RecordedAsIso(health: map<string, string>, key: string) {
    key in health && exists i: Instant :: health[key] == Iso(i)
  }

  predicate NotLater(health: map<string, string>, key: string, next: string) {
    key in health && next in health && !Pagination.Less(health[next], health[key])
  }

  lemma LineIsHeldSince(health: map<string, string>, decisions: Decisions, reminders: map<string, Reminder>,
                        other: string -> Option<Instant>, key: string, h: Held)
    requires RecordedAsIso(health, key) && h in Line(health, decisions, reminders, other, key)
    ensures h.heldSince == health[key]
  {
    var i: Instant :| health[key] == Iso(i);
    IsoIsReadBack(i, other);
  }

  /** Of two entries of the list the one held longer comes first. */
  lemma {:induction false} ListIsOldestFirst(
    health: map<string, string>, decisions: Decisions, reminders: map<string, Reminder>,
    other: string -> Option<Instant>, keys: seq<string>, a: nat, b: nat)
    requires forall i :: 0 <= i < |keys| ==> RecordedAsIso(health, keys[i])
    requires forall i, j :: 0 <= i < j < |keys| ==> NotLater(health, keys[i], keys[j])
    requires a < b < |Listed(health, decisions, reminders, other, keys)|
    ensures var list := Listed(health, decisions, reminders, other, keys);
      !Pagination.Less(list[b].heldSince, list[a].heldSince)
  {
    var n := |keys| - 1;
    var before, last := keys[..n], keys[n];
    var list := Listed(health, decisions, reminders, other, keys);
    var earlier := Listed(health, decisions, reminders, other, before);
    assert list == earlier + Line(health, decisions, reminders, other, last);
    if b < |earlier| {
      ListIsOldestFirst(health, decisions, reminders, other, before, a, b);
    } else {
      assert list[a] == earlier[a] && list[a] in earlier && list[b] in Line(health, decisions, reminders, other, last);
      ListedIff(health, decisions, reminders, other, before, list[a]);
      var i :| 0 <= i < |before| && list[a] in Line(health, decisions, reminders, other, before[i]);
      assert before[i] == keys[i];
      LineIsHeldSince(health, decisions, reminders, other, keys[i], list[a]);
      LineIsHeldSince(health, decisions, reminders, other, last, list[b]);
    }
  }

  /** The values listed for a hold name it exactly when its key has the true prefix and its slot no other shape. */
  lemma EchoNamesTheHoldIff(key: string, other: string -> Option<Instant>)
    requires FireOf(key).Some?
    ensures var f := FireOf(key).value;
      HoldKey(f.0, StoredSlot(Published(f.1, other), other)) == key <==>
      key[..|HOLD_PREFIX|] == HOLD_PREFIX && (AsDate(f.1, other).None? || AsDate(f.1, other).value.second == f.1)
  {
    var f := FireOf(key).value;
    SplitIsWhole(key[|HOLD_PREFIX|..], |key| - |HOLD_PREFIX|);
    EchoIsStoredIff(f.1, other);
    var echoed := StoredSlot(Published(f.1, other), other);
    assert key == key[..|HOLD_PREFIX|] + (f.0 + (":" + f.1));
    if HoldKey(f.0, echoed) == key {
      assert HoldKey(f.0, echoed)[..|HOLD_PREFIX|] == HOLD_PREFIX;
      assert HoldKey(f.0, echoed)[|HOLD_PREFIX| + |f.0| + 1..] == echoed;
      assert key[|HOLD_PREFIX| + |f.0| + 1..] == f.1;
    }
  }

  lemma {:induction false} SplitIsWhole(rest: string, k: nat)
    requires k <= |rest| && Split(rest, k).Some?
    ensures rest == Split(rest, k).value.0 + (":" + Split(rest, k).value.1)
    decreases k
  {
    if k > 0 && !SplitsAt(rest, k - 1) { SplitIsWhole(rest, k - 1); }
  }

  /** Every hold on record that reads as one was written by the scheduler, for a row with a slot in the stored shape. */
  ghost predicate WrittenByScheduler(health: map<string, string>) {
    forall key :: key in health && IsHold(key) && FireOf(key).Some? ==> IsWritten(key)
  }

  ghost predicate IsWritten(key: string) {
    FireOf(key).Some? && OneLine(FireOf(key).value.0) && IsStored(FireOf(key).value.1)
    && key == HoldKey(FireOf(key).value.0, FireOf(key).value.1)
  }

  /** Whatever keys the scheduler has written, for ids of any shape, they are such a store. */
  lemma SchedulerWritesOnly(health: map<string, string>)
    requires forall key :: key in health && IsHold(key) ==>
      exists id, slot :: IsStored(slot) && key == HoldKey(id, slot)
    ensures WrittenByScheduler(health)
  {
    forall key | key in health && IsHold(key) && FireOf(key).Some? ensures IsWritten(key) {
      var id, slot :| IsStored(slot) && key == HoldKey(id, slot);
      if OneLine(id) { SchedulerWrites(id, slot); } else { BrokenIdIsNotListed(id, slot, map[]); }
    }
  }

  /** What the scheduler writes for a one-line id is such a key. */
  lemma SchedulerWrites(id: string, slot: string)
    requires OneLine(id) && IsStored(slot)
    ensures IsHold(HoldKey(id, slot)) && IsWritten(HoldKey(id, slot))
  {
    HoldKeysAreSelected(id, slot);
    StoredIsSlotText(slot);
    FireOfHold(id, slot);
  }

  lemma OpenIsListed(health: map<string, string>, decisions: Decisions, reminders: map<string, Reminder>,
                     other: string -> Option<Instant>, keys: seq<string>, key: string)
    requires IsHoldList(health, keys) && key in health && IsHold(key) && IsOpen(decisions, key)
    ensures Entry(FireOf(key).value.0, FireOf(key).value.1, health[key], reminders, other)
         in Listed(health, decisions, reminders, other, keys)
  {
    var h := Entry(FireOf(key).value.0, FireOf(key).value.1, health[key], reminders, other);
    var i :| 0 <= i < |keys| && keys[i] == key;
    assert h in Line(health, decisions, reminders, other, keys[i]);
    ListedIff(health, decisions, reminders, other, keys, h);
  }

  /** Every open hold is listed, and what the list says about it finds it and decides its own fire. */
  lemma ListedHoldIsFound(health: map<string, string>, decisions: Decisions, reminders: map<string, Reminder>,
                          other: string -> Option<Instant>, keys: seq<string>, id: string, slot: string)
    requires IsHoldList(health, keys) && OneLine(id) && IsStored(slot)
    requires HoldKey(id, slot) in health && (id, slot) !in decisions
    ensures Entry(id, slot, health[HoldKey(id, slot)], reminders, other)
        in Listed(health, decisions, reminders, other, keys)
    ensures StoredSlot(Published(slot, other), other) == slot
  {
    SchedulerWrites(id, slot);
    EchoIsStoredIff(slot, other);
    StoredIsSlotText(slot);
    FireOfHold(id, slot);
    OpenIsListed(health, decisions, reminders, other, keys, HoldKey(id, slot));
  }

  lemma LineAfterDecision(health: map<string, string>, decisions: Decisions, reminders: map<string, Reminder>,
                          other: string -> Option<Instant>, key: string, id: string, slot: string, made: Made, x: Held)
    requires key in health && IsWritten(key) && IsStored(slot)
    ensures x in Line(health, decisions[(id, slot) := made], reminders, other, key) <==>
            x in Line(health, decisions, reminders, other, key)
            && !(x.reminderId == id && x.scheduledAt == Published(slot, other))
  {
    EchoOfWritten(key, other);
    EchoIsStoredIff(slot, other);
  }

  lemma ListedIsWritten(health: map<string, string>, decisions: Decisions, reminders: map<string, Reminder>,
                        other: string -> Option<Instant>, keys: seq<string>, h: Held) returns (slot: string)
    requires IsHoldList(health, keys) && WrittenByScheduler(health)
    requires h in Listed(health, decisions, reminders, other, keys)
    ensures IsStored(slot) && HoldKey(h.reminderId, slot) in health && h.scheduledAt == Published(slot, other)
    ensures StoredSlot(h.scheduledAt, other) == slot
  {
    ListedIff(health, decisions, reminders, other, keys, h);
    var n :| 0 <= n < |keys| && h in Line(health, decisions, reminders, other, keys[n]);
    slot := FireOf(keys[n]).value.1;
    EchoOfWritten(keys[n], other);
  }

  /** The decision made from a listed entry takes that entry, and no other, off the list. */
  lemma DecisionTakesItsEntryOff(health: map<string, string>, decisions: Decisions, reminders: map<string, Reminder>,
                                 other: string -> Option<Instant>, keys: seq<string>, h: Held, made: Made, x: Held)
    requires IsHoldList(health, keys) && WrittenByScheduler(health)
    requires h in Listed(health, decisions, reminders, other, keys)
    ensures HoldKey(h.reminderId, StoredSlot(h.scheduledAt, other)) in health
    ensures var after := decisions[(h.reminderId, StoredSlot(h.scheduledAt, other)) := made];
            x in Listed(health, after, reminders, other, keys) <==>
            x in Listed(health, decisions, reminders, other, keys)
            && !(x.reminderId == h.reminderId && x.scheduledAt == h.scheduledAt)
  {
    var slot := ListedIsWritten(health, decisions, reminders, other, keys, h);
    var after := decisions[(h.reminderId, slot) := made];
    ListedIff(health, decisions, reminders, other, keys, x);
    ListedIff(health, after, reminders, other, keys, x);
    forall i | 0 <= i < |keys|
      ensures x in Line(health, after, reminders, other, keys[i]) <==>
              x in Line(health, decisions, reminders, other, keys[i])
              && !(x.reminderId == h.reminderId && x.scheduledAt == h.scheduledAt)
    {
      if FireOf(keys[i]).Some? {
        LineAfterDecision(health, decisions, reminders, other, keys[i], h.reminderId, slot, made, x);
      }
    }
  }

  lemma EchoOfWritten(key: string, other: string -> Option<Instant>)
    requires IsWritten(key)
    ensures StoredSlot(Published(FireOf(key).value.1, other), other) == FireOf(key).value.1
  {
    EchoIsStoredIff(FireOf(key).value.1, other);
  }

  // ----- What the list misses, and what it shows that is no hold -----

  /** A hold of a reminder whose id breaks the line is on no list. */
  lemma BrokenIdIsNotListed(id: string, slot: string, decisions: Decisions)
    requires IsStored(slot) && !OneLine(id)
    ensures IsHold(HoldKey(id, slot)) && !IsOpen(decisions, HoldKey(id, slot))
  {
    StoredIsSlotText(slot);
    HoldKeysAreSelected(id, slot);
    KeyIsReadBackIff(id, slot);
  }

  const LOOKALIKE := "overdue-hold:"

  lemma LookalikeReads(id: string, slot: string)
    requires OneLine(id) && IsStored(slot)
    ensures IsHold(LOOKALIKE + (id + (":" + slot))) && FireOf(LOOKALIKE + (id + (":" + slot))) == Some((id, slot))
  {
    LikePrefix(HOLD_PREFIX, LOOKALIKE + (id + (":" + slot)));
    StoredIsSlotText(slot);
    FireOfPrefixed(LOOKALIKE, id, slot);
  }

  /** The underscore of the pattern lets in keys that are no holds, and no decision ever finds those. */
  lemma LookalikeIsListed(id: string, slot: string, decisions: Decisions, other: string -> Option<Instant>)
    requires OneLine(id) && IsStored(slot) && (id, slot) !in decisions
    ensures var key := LOOKALIKE + (id + (":" + slot));
      IsHold(key) && IsOpen(decisions, key) && HoldKey(id, StoredSlot(Published(slot, other), other)) != key
  {
    LookalikeReads(id, slot);
    EchoIsStoredIff(slot, other);
    assert (LOOKALIKE + (id + (":" + slot)))[7] == '-' && HoldKey(id, slot)[7] == '_';
  }
}
