/**
 * Slots as text: the stored shape `YYYY-MM-DD HH:MM:SS`, the published ISO one, and the keys that
 * carry a slot (packages/http/src/reminder-overdue.ts, packages/self-reminder/src/scheduler.ts).
 * An instant is its UTC text to the second and its milliseconds; the years are 0000 to 9999.
 * What a date parser makes of a text in no ISO shape is the parameter `other`.
 */
module Slots {
  import opened Wrappers
  import opened Texts

  datatype Stamp = Stamp(second: string, millis: string)

  predicate AllDigits(s: string) { forall k :: 0 <= k < |s| ==> IsDigit(s[k]) }

  function Two(s: string, k: nat): int
    requires k + 2 <= |s|
  {
    10 * (s[k] as int - '0' as int) + (s[k + 1] as int - '0' as int)
  }

  /** `\d{4}-\d{2}-\d{2}x\d{2}:\d{2}:\d{2}` with x the given separator. */
  predicate IsSecond(s: string, separator: char) {
    && |s| == 19 && s[4] == '-' && s[7] == '-' && s[10] == separator && s[13] == ':' && s[16] == ':'
    && IsDigit(s[0]) && IsDigit(s[1]) && IsDigit(s[2]) && IsDigit(s[3]) && IsDigit(s[5]) && IsDigit(s[6])
    && IsDigit(s[8]) && IsDigit(s[9]) && IsDigit(s[11]) && IsDigit(s[12]) && IsDigit(s[14]) && IsDigit(s[15])
    && IsDigit(s[17]) && IsDigit(s[18])
  }

  predicate IsLeap(year: int) { year % 4 == 0 && (year % 100 != 0 || year % 400 == 0) }

  function DaysIn(year: int, month: int): int {
    if month == 2 then (if IsLeap(year) then 29 else 28)
    else if month == 4 || month == 6 || month == 9 || month == 11 then 30 else 31
  }

  /** The numbers name a moment of the calendar. */
  predicate OnCalendar(s: string)
    requires |s| == 19
  {
    var year := 100 * Two(s, 0) + Two(s, 2);
    && 1 <= Two(s, 5) <= 12 && 1 <= Two(s, 8) <= DaysIn(year, Two(s, 5))
    && Two(s, 11) <= 23 && Two(s, 14) <= 59 && Two(s, 17) <= 59
  }

  /** The shape the scheduler stores. */
  predicate IsStored(s: string) { IsSecond(s, ' ') && OnCalendar(s) }

  predicate IsInstant(i: Stamp) { IsStored(i.second) && |i.millis| == 3 && AllDigits(i.millis) }

  type Instant = i: Stamp | IsInstant(i) witness Stamp("2026-01-01 00:00:00", "000")

  // ----- Instants as numbers -----

  function DaysBeforeYear(year: nat): nat {
    if year == 0 then 0 else DaysBeforeYear(year - 1) + if IsLeap(year - 1) then 366 else 365
  }

  function DaysBeforeMonth(year: int, month: nat): nat {
    if month <= 1 then 0 else DaysBeforeMonth(year, month - 1) + DaysIn(year, month - 1)
  }

  /** Seconds since the start of the year 0000. */
  function SecondsOf(s: string): int
    requires IsStored(s)
  {
    var year := 100 * Two(s, 0) + Two(s, 2);
    var days := DaysBeforeYear(year) + DaysBeforeMonth(year, Two(s, 5)) + Two(s, 8) - 1;
    ((days * 24 + Two(s, 11)) * 60 + Two(s, 14)) * 60 + Two(s, 17)
  }

  /** `getTime`, but for where time starts. */
  function TimeOf(i: Instant): int {
    1000 * SecondsOf(i.second) + 10 * Two(i.millis, 0) + (i.millis[2] as int - '0' as int)
  }

  /** `toISOString`. */
  function Iso(i: Instant): string {
    i.second[..10] + "T" + i.second[11..] + "." + i.millis + "Z"
  }

  function Millis(fraction: string): string { (fraction + "000")[..3] }

  /** `YYYY-MM-DDTHH:MM:SS`, perhaps a fraction, `Z`. */
  predicate IsUtc(text: string) {
    && |text| >= 20 && IsSecond(text[..19], 'T') && OnCalendar(text[..19]) && text[|text| - 1] == 'Z'
    && (|text| == 20 || (|text| >= 22 && text[19] == '.' && AllDigits(text[20..|text| - 1])))
  }

  function Spaced(s: string): string
    requires |s| == 19
  {
    s[..10] + " " + s[11..]
  }

  lemma UtcIsInstant(text: string)
    requires IsUtc(text)
    ensures IsInstant(Stamp(Spaced(text[..19]), if |text| == 20 then "000" else Millis(text[20..|text| - 1])))
  {
    forall k | 0 <= k < 19 ensures Spaced(text[..19])[k] == if k == 10 then ' ' else text[..19][k] {}
    if |text| > 20 {
      var fraction := text[20..|text| - 1];
      assert forall k :: 0 <= k < 3 ==> (fraction + "000")[k] == if k < |fraction| then fraction[k] else '0';
    }
  }

  /** `new Date(text)`, None when it is no date. */
  function Parse(text: string, other: string -> Option<Instant>): Option<Instant> {
    if !IsUtc(text) then other(text)
    else
      UtcIsInstant(text);
      Some(Stamp(Spaced(text[..19]), if |text| == 20 then "000" else Millis(text[20..|text| - 1])))
  }

  /** The digits behind the point are thousandths from the left, what is missing being noughts. */
  lemma FractionIsRead(second: string, fraction: string, other: string -> Option<Instant>)
    requires IsSecond(second, 'T') && OnCalendar(second) && fraction != "" && AllDigits(fraction)
    ensures var i := Parse(second + "." + fraction + "Z", other);
      && i.Some? && i.value.second == second[..10] + " " + second[11..]
      && forall k :: 0 <= k < 3 ==> i.value.millis[k] == if k < |fraction| then fraction[k] else '0'
  {
    var text := second + "." + fraction + "Z";
    assert text[..19] == second && text[20..|text| - 1] == fraction;
    assert forall k :: 0 <= k < 3 ==> (fraction + "000")[k] == if k < |fraction| then fraction[k] else '0';
  }

  /** Time goes on by the thousandth. */
  lemma TimeIsCounted(i: Instant)
    ensures TimeOf(i) == 1000 * SecondsOf(i.second) + DecimalValue(i.millis)
    ensures 1000 * SecondsOf(i.second) <= TimeOf(i) < 1000 * SecondsOf(i.second) + 1000
  {
    var m := i.millis;
    assert IsDigit(m[0]) && IsDigit(m[1]) && IsDigit(m[2]);
    assert m[..2][..1] == m[..1] && m[..1][..0] == "" && m[..2][1] == m[1];
    assert DecimalValue(m[..1]) == m[0] as int - '0' as int;
    assert DecimalValue(m[..2]) == 10 * DecimalValue(m[..1]) + (m[1] as int - '0' as int);
  }

  predicate Has(s: string, c: char) { exists k :: 0 <= k < |s| && s[k] == c }

  /** The first space from k on, or the end. */
  function SpaceFrom(s: string, k: nat): (n: nat)
    requires k <= |s|
    ensures k <= n <= |s| && (n < |s| ==> s[n] == ' ') && forall j :: k <= j < n ==> s[j] != ' '
    decreases |s| - k
  {
    if k == |s| || s[k] == ' ' then k else SpaceFrom(s, k + 1)
  }

  /** `value.replace(' ', 'T')`. */
  function WithT(s: string): string {
    var k := SpaceFrom(s, 0);
    if k == |s| then s else s[..k] + "T" + s[k + 1..]
  }

  /** `asDate`. */
  function AsDate(value: string, other: string -> Option<Instant>): Option<Instant> {
    if value == "" then None
    else Parse(if Has(value, 'T') then value else WithT(value) + "Z", other)
  }

  /** `iso(value) ?? value`: how a slot is published. */
  function Published(value: string, other: string -> Option<Instant>): string {
    var d := AsDate(value, other);
    if d.Some? then Iso(d.value) else value
  }

  /** `storedSlot`. */
  function StoredSlot(value: string, other: string -> Option<Instant>): string {
    var d := AsDate(value, other);
    if d.Some? then d.value.second else value
  }

  lemma IsoIsUtc(i: Instant)
    ensures var text := Iso(i);
      && |text| == 24 && Has(text, 'T') && IsUtc(text) && Spaced(text[..19]) == i.second && text[20..23] == i.millis
  {
    var text := Iso(i);
    TIsIso(i.second);
    assert text[10] == 'T';
    assert text[..19] == i.second[..10] + "T" + i.second[11..];
    assert text[20..23] == i.millis;
  }

  /** What is printed is read back, to the millisecond. */
  lemma IsoIsReadBack(i: Instant, other: string -> Option<Instant>)
    ensures AsDate(Iso(i), other) == Some(i)
  {
    IsoIsUtc(i);
    assert (i.millis + "000")[..3] == i.millis;
  }

  lemma TIsIso(slot: string)
    requires IsStored(slot)
    ensures var second := slot[..10] + "T" + slot[11..];
      && |second| == 19 && IsSecond(second, 'T') && OnCalendar(second) && Spaced(second) == slot
  {
    var second := slot[..10] + "T" + slot[11..];
    forall k | 0 <= k < 19 ensures second[k] == if k == 10 then 'T' else slot[k] {}
  }

  lemma StoredText(slot: string)
    requires IsStored(slot)
    ensures !Has(slot, 'T') && WithT(slot) == slot[..10] + "T" + slot[11..]
  {
    assert SpaceFrom(slot, 0) == 10;
  }

  /** A stored slot is the instant it says, to the second. */
  lemma StoredIsDate(slot: string, other: string -> Option<Instant>)
    requires IsStored(slot)
    ensures AsDate(slot, other) == Some(Stamp(slot, "000"))
  {
    StoredText(slot);
    TIsIso(slot);
    var second := slot[..10] + "T" + slot[11..];
    assert (second + "Z")[..19] == second;
  }

  /**
   * The shape a slot comes back in is the one it is stored in: a console that echoes what was
   * published names the stored slot exactly when that is no date at all or is in the stored shape.
   */
  lemma EchoIsStoredIff(slot: string, other: string -> Option<Instant>)
    ensures StoredSlot(Published(slot, other), other) == slot
        <==> (AsDate(slot, other).None? || AsDate(slot, other).value.second == slot)
    ensures IsStored(slot) ==> StoredSlot(Published(slot, other), other) == slot
  {
    if AsDate(slot, other).Some? { IsoIsReadBack(AsDate(slot, other).value, other); }
    if IsStored(slot) { StoredIsDate(slot, other); }
  }

  // ----- Hold keys -----

  const HOLD_PREFIX := "overdue_hold:"

  /** The key the scheduler records a hold under. */
  function HoldKey(id: string, slot: string): string { HOLD_PREFIX + (id + (":" + slot)) }

  predicate IsLineBreak(c: char) { c == '\n' || c == '\r' || c == '\U{2028}' || c == '\U{2029}' }

  predicate OneLine(s: string) { forall k :: 0 <= k < |s| ==> !IsLineBreak(s[k]) }

  /** `(?:\.\d+)?Z?` to the end. */
  predicate IsTail(s: string) {
    var body := if s != "" && s[|s| - 1] == 'Z' then s[..|s| - 1] else s;
    body == "" || (|body| >= 2 && body[0] == '.' && AllDigits(body[1..]))
  }

  /** `\d{4}-\d{2}-\d{2}[ T]\d{2}:\d{2}:\d{2}(?:\.\d+)?Z?`, all of it. */
  predicate IsSlotText(s: string) {
    |s| >= 19 && (IsSecond(s[..19], ' ') || IsSecond(s[..19], 'T')) && IsTail(s[19..])
  }

  /** The date and time, perhaps a point and digits, perhaps a `Z`. */
  ghost predicate IsMadeOf(s: string, second: string, fraction: string, z: string) {
    && s == second + fraction + z && (IsSecond(second, ' ') || IsSecond(second, 'T'))
    && (fraction == "" || (|fraction| >= 2 && fraction[0] == '.' && AllDigits(fraction[1..])))
    && (z == "" || z == "Z")
  }

  lemma SlotTextIff(s: string)
    ensures IsSlotText(s) <==> exists second, fraction, z :: IsMadeOf(s, second, fraction, z)
  {
    if IsSlotText(s) {
      var fraction, z := TailParts(s[19..]);
      JoinThree(s[..19], fraction, z);
      assert s == s[..19] + s[19..];
      assert IsMadeOf(s, s[..19], fraction, z);
    }
    if second, fraction, z :| IsMadeOf(s, second, fraction, z) { MadeOfIsSlotText(s, second, fraction, z); }
  }

  lemma TailParts(tail: string) returns (fraction: string, z: string)
    requires IsTail(tail)
    ensures tail == fraction + z && (z == "" || z == "Z")
    ensures fraction == "" || (|fraction| >= 2 && fraction[0] == '.' && AllDigits(fraction[1..]))
  {
    z := if tail != "" && tail[|tail| - 1] == 'Z' then "Z" else "";
    fraction := tail[..|tail| - |z|];
  }

  lemma JoinThree(a: string, b: string, c: string)
    ensures a + (b + c) == a + b + c
  {
  }

  lemma MadeOfIsSlotText(s: string, second: string, fraction: string, z: string)
    requires IsMadeOf(s, second, fraction, z)
    ensures IsSlotText(s)
  {
    JoinThree(second, fraction, z);
    assert s[..19] == second && s[19..] == fraction + z;
    if z == "Z" {
      assert (fraction + z)[..|fraction|] == fraction;
    } else if fraction != "" {
      assert IsDigit(fraction[1..][|fraction| - 2]);
      assert fraction + z == fraction;
    }
  }

  /** Whether the text splits at the colon at k. */
  predicate SplitsAt(rest: string, k: nat) {
    k < |rest| && rest[k] == ':' && OneLine(rest[..k]) && IsSlotText(rest[k + 1..])
  }

  /** The match of `^(.*):(slot)$`: the greedy prefix is tried longest first. */
  function Split(rest: string, k: nat): Option<(string, string)>
    requires k <= |rest|
    decreases k
  {
    if k == 0 then None
    else if SplitsAt(rest, k - 1) then Some((rest[..k - 1], rest[k..]))
    else Split(rest, k - 1)
  }

  /** A slot has no colon that begins another slot. */
  lemma SlotHasNoSlot(s: string, k: nat)
    requires IsSlotText(s) && k < |s| && s[k] == ':'
    ensures !IsSlotText(s[k + 1..])
  {
    TailIsPlain(s[19..]);
    assert forall j :: 19 <= j < |s| ==> s[j] == s[19..][j - 19];
    assert forall j :: 0 <= j < 19 ==> s[..19][j] == s[j];
    var t := s[k + 1..];
    assert |t| >= 19 ==> t[..19][4] == s[k + 5];
  }

  lemma TailIsPlain(s: string)
    requires IsTail(s)
    ensures forall k :: 0 <= k < |s| ==> s[k] == 'Z' || s[k] == '.' || IsDigit(s[k])
  {
    var body := if s != "" && s[|s| - 1] == 'Z' then s[..|s| - 1] else s;
    forall k | 0 <= k < |s| ensures s[k] == 'Z' || s[k] == '.' || IsDigit(s[k]) {
      if k < |body| {
        assert s[k] == body[k];
        if k > 0 { assert body[k] == body[1..][k - 1]; }
      }
    }
  }

  /** Searching from the end meets the colon before the slot first, whatever colons the id holds. */
  lemma {:induction false} SplitFinds(id: string, slot: string, k: nat)
    requires IsSlotText(slot) && OneLine(id) && |id| < k <= |id| + 1 + |slot|
    ensures Split(id + (":" + slot), k) == Some((id, slot))
    decreases k
  {
    var rest := id + (":" + slot);
    assert rest[..|id|] == id && rest[|id| + 1..] == slot;
    if k > |id| + 1 {
      if rest[k - 1] == ':' {
        SlotHasNoSlot(slot, k - |id| - 2);
        assert rest[k..] == slot[k - |id| - 1..];
      }
      SplitFinds(id, slot, k - 1);
    }
  }

  lemma SlotIsOneLine(s: string)
    requires IsSlotText(s)
    ensures OneLine(s)
  {
    TailIsPlain(s[19..]);
    assert forall j :: 19 <= j < |s| ==> s[j] == s[19..][j - 19];
    assert forall j :: 0 <= j < 19 ==> s[..19][j] == s[j];
  }

  lemma NoSplitAroundABreak(rest: string, k: nat, n: nat)
    requires k < |rest| && n < |rest| && IsLineBreak(rest[n])
    ensures !SplitsAt(rest, k)
  {
    assert forall j :: 0 <= j < k ==> rest[..k][j] == rest[j];
    assert forall j :: k < j < |rest| ==> rest[k + 1..][j - k - 1] == rest[j];
    if IsSlotText(rest[k + 1..]) { SlotIsOneLine(rest[k + 1..]); }
  }

  lemma {:induction false} BrokenSplitsNowhere(rest: string, k: nat, n: nat)
    requires k <= |rest| && n < |rest| && IsLineBreak(rest[n])
    ensures Split(rest, k) == None
    decreases k
  {
    if k > 0 {
      NoSplitAroundABreak(rest, k - 1, n);
      BrokenSplitsNowhere(rest, k - 1, n);
    }
  }

  /** A hold key reads back as its reminder and its slot when the id is one line, and as nothing when it is not. */
  lemma KeyIsReadBackIff(id: string, slot: string)
    requires IsSlotText(slot)
    ensures var rest := HoldKey(id, slot)[|HOLD_PREFIX|..];
      Split(rest, |rest|) == if OneLine(id) then Some((id, slot)) else None
  {
    var rest := id + (":" + slot);
    assert HoldKey(id, slot)[|HOLD_PREFIX|..] == rest;
    if OneLine(id) {
      SplitFinds(id, slot, |rest|);
    } else {
      var n :| 0 <= n < |id| && IsLineBreak(id[n]);
      BrokenSplitsNowhere(rest, |rest|, n);
    }
  }
}
