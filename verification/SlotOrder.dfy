/**
 * Slots are compared as text: `next_fire_at <= ?` and `ORDER BY next_fire_at` of
 * packages/self-reminder/src/scheduler.ts. In the stored shape that is the order of time.
 */
module SlotOrder {
  import opened Pagination
  import opened Slots

  function YearOf(s: string): nat
    requires IsStored(s)
  {
    100 * Two(s, 0) + Two(s, 2)
  }

  /** The first place where two texts of one length differ decides between them. */
  lemma {:induction false} FirstDifference(a: string, b: string) returns (k: nat)
    requires |a| == |b| && a != b
    ensures k < |a| && a[k] != b[k] && (forall j :: 0 <= j < k ==> a[j] == b[j]) && (Less(a, b) <==> a[k] < b[k])
  {
    if a[0] != b[0] {
      k := 0;
    } else {
      assert a == [a[0]] + a[1..] && b == [b[0]] + b[1..];
      k := FirstDifference(a[1..], b[1..]);
      k := k + 1;
    }
  }

  // ----- Days -----

  lemma {:induction false} YearsGrow(a: nat, b: nat)
    requires a < b
    ensures DaysBeforeYear(a) + (if IsLeap(a) then 366 else 365) <= DaysBeforeYear(b)
    decreases b
  {
    if a < b - 1 { YearsGrow(a, b - 1); }
  }

  lemma {:induction false} MonthsGrow(year: int, a: nat, b: nat)
    requires 1 <= a < b
    ensures DaysBeforeMonth(year, a) + DaysIn(year, a) <= DaysBeforeMonth(year, b)
    decreases b
  {
    if a < b - 1 { MonthsGrow(year, a, b - 1); }
  }

  lemma NextMonth(year: int, month: nat)
    requires month >= 1
    ensures DaysBeforeMonth(year, month + 1) == DaysBeforeMonth(year, month) + DaysIn(year, month)
  {
  }

  lemma YearIsItsMonths(year: int)
    ensures DaysBeforeMonth(year, 13) == if IsLeap(year) then 366 else 365
  {
    NextMonth(year, 12);
    NextMonth(year, 11);
    NextMonth(year, 10);
    NextMonth(year, 9);
    NextMonth(year, 8);
    NextMonth(year, 7);
    NextMonth(year, 6);
    NextMonth(year, 5);
    NextMonth(year, 4);
    NextMonth(year, 3);
    NextMonth(year, 2);
    NextMonth(year, 1);
  }

  function DayOf(s: string): int
    requires IsStored(s)
  {
    DaysBeforeYear(YearOf(s)) + DaysBeforeMonth(YearOf(s), Two(s, 5)) + Two(s, 8) - 1
  }

  lemma DaysInOrder(a: string, b: string)
    requires IsStored(a) && IsStored(b)
    requires
      || YearOf(a) < YearOf(b)
      || (YearOf(a) == YearOf(b) && (Two(a, 5) < Two(b, 5) || (Two(a, 5) == Two(b, 5) && Two(a, 8) < Two(b, 8))))
    ensures DayOf(a) < DayOf(b)
  {
    if YearOf(a) < YearOf(b) {
      YearsGrow(YearOf(a), YearOf(b));
      MonthsGrow(YearOf(a), Two(a, 5), 13);
      YearIsItsMonths(YearOf(a));
    } else if Two(a, 5) < Two(b, 5) {
      MonthsGrow(YearOf(a), Two(a, 5), Two(b, 5));
    }
  }

  /** The lengths of the months. */
  lemma MonthLengths(year: int)
    ensures DaysIn(year, 1) == DaysIn(year, 3) == DaysIn(year, 5) == DaysIn(year, 7) == DaysIn(year, 8) == 31
    ensures DaysIn(year, 10) == DaysIn(year, 12) == 31
    ensures DaysIn(year, 4) == DaysIn(year, 6) == DaysIn(year, 9) == DaysIn(year, 11) == 30
    ensures DaysIn(year, 2) == 29 <==> year % 4 == 0 && (year % 100 == 0 ==> year % 400 == 0)
    ensures DaysIn(year, 2) == 28 || DaysIn(year, 2) == 29
  {
  }

  /** `b` is the day after `a`: within the month, on the first of the next, or on the first of the next year. */
  predicate IsNextDay(a: string, b: string)
    requires IsStored(a) && IsStored(b)
  {
    || (YearOf(a) == YearOf(b) && Two(a, 5) == Two(b, 5) && Two(b, 8) == Two(a, 8) + 1)
    || (YearOf(a) == YearOf(b) && Two(b, 5) == Two(a, 5) + 1 && Two(a, 8) == DaysIn(YearOf(a), Two(a, 5))
        && Two(b, 8) == 1)
    || (YearOf(b) == YearOf(a) + 1 && Two(a, 5) == 12 && Two(a, 8) == 31 && Two(b, 5) == 1 && Two(b, 8) == 1)
  }

  /** From one day to the next at the same time of day are 86400 seconds, whatever month or year ends. */
  lemma NextDayIsLater(a: string, b: string)
    requires IsStored(a) && IsStored(b) && IsNextDay(a, b) && a[11..] == b[11..]
    ensures SecondsOf(b) == SecondsOf(a) + 86400
  {
    assert forall k :: 11 <= k < 19 ==> a[k] == a[11..][k - 11] && b[k] == b[11..][k - 11];
    assert Two(a, 11) == Two(b, 11) && Two(a, 14) == Two(b, 14) && Two(a, 17) == Two(b, 17);
    SecondsAre(a);
    SecondsAre(b);
    if YearOf(a) != YearOf(b) {
      YearIsItsMonths(YearOf(a));
      NextMonth(YearOf(a), 12);
    } else if Two(a, 5) != Two(b, 5) {
      NextMonth(YearOf(a), Two(a, 5));
    }
  }

  /** Within a day the clock's own digits tell the difference. */
  lemma SameDayDiffers(a: string, b: string)
    requires IsStored(a) && IsStored(b) && a[..10] == b[..10]
    ensures SecondsOf(b) - SecondsOf(a)
         == 3600 * (Two(b, 11) - Two(a, 11)) + 60 * (Two(b, 14) - Two(a, 14)) + (Two(b, 17) - Two(a, 17))
  {
    assert forall k :: 0 <= k < 10 ==> a[k] == a[..10][k] && b[k] == b[..10][k];
    assert YearOf(a) == YearOf(b) && Two(a, 5) == Two(b, 5) && Two(a, 8) == Two(b, 8);
    SecondsAre(a);
    SecondsAre(b);
  }

  // ----- Seconds -----

  function ClockOf(s: string): (seconds: int)
    requires IsStored(s)
    ensures 0 <= seconds < 86400
  {
    3600 * Two(s, 11) + 60 * Two(s, 14) + Two(s, 17)
  }

  lemma SecondsAre(s: string)
    requires IsStored(s)
    ensures SecondsOf(s) == 86400 * DayOf(s) + ClockOf(s)
  {
  }

  lemma DayDiffersAt(a: string, b: string, k: nat)
    requires IsStored(a) && IsStored(b) && k < 10 && a[k] < b[k] && forall j :: 0 <= j < k ==> a[j] == b[j]
    ensures DayOf(a) < DayOf(b)
  {
    DaysInOrder(a, b);
  }

  lemma ClockDiffersAt(a: string, b: string, k: nat)
    requires IsStored(a) && IsStored(b) && 10 <= k < 19 && a[k] < b[k] && forall j :: 0 <= j < k ==> a[j] == b[j]
    ensures DayOf(a) == DayOf(b) && ClockOf(a) < ClockOf(b)
  {
    assert YearOf(a) == YearOf(b) && Two(a, 5) == Two(b, 5) && Two(a, 8) == Two(b, 8);
  }

  /** A slot whose text differs first, and downwards, at place k is the earlier one. */
  lemma EarlierAt(a: string, b: string, k: nat)
    requires IsStored(a) && IsStored(b) && k < 19 && a[k] < b[k] && forall j :: 0 <= j < k ==> a[j] == b[j]
    ensures SecondsOf(a) < SecondsOf(b)
  {
    SecondsAre(a);
    SecondsAre(b);
    if k < 10 { DayDiffersAt(a, b, k); } else { ClockDiffersAt(a, b, k); }
  }

  /** For stored slots the order of text is the order of time. */
  lemma TextOrderIsTimeOrder(a: string, b: string)
    requires IsStored(a) && IsStored(b)
    ensures Less(a, b) <==> SecondsOf(a) < SecondsOf(b)
    ensures a == b <==> SecondsOf(a) == SecondsOf(b)
  {
    if a == b {
      LessIsTotal(a, b);
    } else {
      var k := FirstDifference(a, b);
      if a[k] < b[k] { EarlierAt(a, b, k); } else { EarlierAt(b, a, k); }
    }
  }
}
