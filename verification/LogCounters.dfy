/** packages/log/src/index.ts: the counters, one per (component, event, reason), that every line moves. */
module LogCounters {
  /** What a call states as its reason: nothing, a text, or something that is not a text. */
  datatype Stated = Absent | Text(text: string) | Other

  datatype EventCount = EventCount(component: string, event: string, reason: string, count: nat)

  predicate IsTokenChar(c: char) {
    'a' <= c <= 'z' || '0' <= c <= '9' || c == '_' || c == '.' || c == ':' || c == '-'
  }

  /** `/^[a-z0-9][a-z0-9_.:-]{0,63}$/`. */
  predicate IsBounded(s: string) {
    && 1 <= |s| <= 64 && (forall k :: 0 <= k < |s| ==> IsTokenChar(s[k]))
    && ('a' <= s[0] <= 'z' || '0' <= s[0] <= '9')
  }

  function Reason(stated: Stated): string {
    match stated
    case Absent => ""
    case Text(text) => if IsBounded(text) then text else "other"
    case Other => "other"
  }

  /**
   * A line is counted without a reason exactly when none is stated; under its own when that is a token
   * of 1 to 64 small letters, digits and `_.:-` that begins with a letter or digit; under "other" else.
   */
  lemma ReasonIs(stated: Stated)
    ensures Reason(stated) == "" <==> stated == Absent
    ensures stated != Absent && (forall text :: stated == Text(text) ==> !IsBounded(text)) ==>
      Reason(stated) == "other"
    ensures forall text :: stated == Text(text) && IsBounded(text) ==> Reason(stated) == text
    ensures stated != Absent ==> 1 <= |Reason(stated)| <= 64
    ensures forall k :: 0 <= k < |Reason(stated)| ==>
      var c := Reason(stated)[k]; IsSmallOrDigit(c) || c == '_' || c == '.' || c == ':' || c == '-'
    ensures stated != Absent ==> IsSmallOrDigit(Reason(stated)[0])
  {
  }

  predicate IsSmallOrDigit(c: char) { 'a' <= c <= 'z' || '0' <= c <= '9' }

  function CounterKey(component: string, event: string, reason: string): string {
    component + (" " + (event + (" " + reason)))
  }

  // ----- Reading a key back -----

  /** `s.split(" ")`. */
  function SplitSpaces(s: string): (parts: seq<string>)
    ensures parts != []
  {
    if s == "" then [""]
    else
      var rest := SplitSpaces(s[1..]);
      if s[0] == ' ' then [""] + rest else [[s[0]] + rest[0]] + rest[1..]
  }

  lemma {:induction false} SplitTakesWord(word: string, rest: string)
    requires ' ' !in word
    ensures SplitSpaces(word + (" " + rest)) == [word] + SplitSpaces(rest)
  {
    var s := word + (" " + rest);
    if word == "" {
      assert s[1..] == rest;
    } else {
      assert word[0] in word && forall k :: 0 <= k < |word| - 1 ==> word[1..][k] in word;
      SplitTakesWord(word[1..], rest);
      assert s[1..] == word[1..] + (" " + rest) && s[0] == word[0];
      FirstPartGrows(s, word, SplitSpaces(rest));
    }
  }

  /** A character that is no space goes to the front of the first part. */
  lemma FirstPartGrows(s: string, word: string, parts: seq<string>)
    requires s != "" && word != "" && s[0] == word[0] != ' ' && SplitSpaces(s[1..]) == [word[1..]] + parts
    ensures SplitSpaces(s) == [word] + parts
  {
    assert [word[0]] + word[1..] == word;
  }

  lemma {:induction false} SplitKeepsWord(word: string)
    requires ' ' !in word
    ensures SplitSpaces(word) == [word]
  {
    if word != "" {
      assert word[0] in word && forall k :: 0 <= k < |word| - 1 ==> word[1..][k] in word;
      SplitKeepsWord(word[1..]);
      assert [word[0]] + word[1..] == word;
    }
  }

  lemma {:induction false} PartsHoldNoSpace(s: string)
    ensures forall i :: 0 <= i < |SplitSpaces(s)| ==> ' ' !in SplitSpaces(s)[i]
  {
    if s != "" {
      PartsHoldNoSpace(s[1..]);
      var rest := SplitSpaces(s[1..]);
      assert ' ' !in rest[0];
    }
  }

  /** Splitting a text at its spaces splits what stands before a space and after it. */
  lemma {:induction false} SplitCounts(a: string, b: string)
    ensures |SplitSpaces(a + (" " + b))| == |SplitSpaces(a)| + |SplitSpaces(b)|
  {
    var s := a + (" " + b);
    if a == "" {
      assert s[1..] == b;
    } else {
      SplitCounts(a[1..], b);
      assert s[1..] == a[1..] + (" " + b);
    }
  }

  /** Every key has its three parts, and more when a name holds a space. */
  lemma KeyHasThreeParts(component: string, event: string, reason: string)
    ensures |SplitSpaces(CounterKey(component, event, reason))| >= 3
  {
    SplitCounts(component, event + (" " + reason));
    SplitCounts(event, reason);
  }

  /** A counter's key names its component, event and reason again exactly when neither name holds a space. */
  lemma KeyIsReadBackIff(component: string, event: string, stated: Stated)
    ensures SplitSpaces(CounterKey(component, event, Reason(stated))) == [component, event, Reason(stated)]
      <==> ' ' !in component && ' ' !in event
  {
    var reason := Reason(stated);
    PartsHoldNoSpace(CounterKey(component, event, reason));
    if ' ' !in component && ' ' !in event {
      SplitTakesWord(component, event + (" " + reason));
      SplitTakesWord(event, reason);
      SplitKeepsWord(reason);
    } else {
      var parts := [component, event, reason];
      assert parts[0] == component && parts[1] == event;
    }
  }

  // ----- Counting -----

  ghost function Total(counts: map<string, nat>): nat
    decreases |counts|
  {
    if counts == map[] then 0
    else
      var k :| k in counts;
      assert |counts - {k}| < |counts| by { SmallerWithout(counts, k); }
      counts[k] + Total(counts - {k})
  }

  lemma SmallerWithout(counts: map<string, nat>, k: string)
    requires k in counts
    ensures |counts - {k}| == |counts| - 1
  {
    assert (counts - {k}).Keys == counts.Keys - {k};
    assert |(counts - {k}).Keys| == |counts - {k}| && |counts.Keys| == |counts|;
  }

  lemma {:induction false} TotalWithout(counts: map<string, nat>, k: string)
    requires k in counts
    ensures Total(counts) == counts[k] + Total(counts - {k})
    decreases |counts|
  {
    var p :| p in counts && Total(counts) == counts[p] + Total(counts - {p});
    if p != k {
      SmallerWithout(counts, p);
      SmallerWithout(counts, k);
      TotalWithout(counts - {p}, k);
      TotalWithout(counts - {k}, p);
      assert counts - {p} - {k} == counts - {k} - {p};
    }
  }

  lemma TotalAfterIncrement(counts: map<string, nat>, k: string)
    ensures Total(counts[k := (if k in counts then counts[k] else 0) + 1]) == Total(counts) + 1
  {
    var after := counts[k := (if k in counts then counts[k] else 0) + 1];
    TotalWithout(after, k);
    if k in counts {
      TotalWithout(counts, k);
      assert after - {k} == counts - {k};
    } else {
      assert after - {k} == counts;
    }
  }

  function Sum(rows: seq<EventCount>): nat {
    if rows == [] then 0 else rows[0].count + Sum(rows[1..])
  }

  lemma {:induction false} SumAppends(rows: seq<EventCount>, row: EventCount)
    ensures Sum(rows + [row]) == Sum(rows) + row.count
  {
    if rows == [] {
      assert [row][1..] == [];
    } else {
      SumAppends(rows[1..], row);
      assert (rows + [row])[1..] == rows[1..] + [row];
    }
  }

  /** The row is about the lines of one key: it shows the key's first three parts and counts exactly those lines. */
  ghost predicate CountsItsLines(row: EventCount, lines: seq<string>) {
    exists k :: k in lines && |SplitSpaces(k)| >= 3 && row.count == multiset(lines)[k]
      && [row.component, row.event, row.reason] == SplitSpaces(k)[..3]
  }

  lemma RowCountsItsLines(row: EventCount, lines: seq<string>, k: string)
    requires k in lines && |SplitSpaces(k)| >= 3
    requires row == EventCount(SplitSpaces(k)[0], SplitSpaces(k)[1], SplitSpaces(k)[2], multiset(lines)[k])
    ensures CountsItsLines(row, lines)
  {
    assert SplitSpaces(k)[..3] == [row.component, row.event, row.reason];
  }

  class Counters {
    var counts: map<string, nat>
    /** Every line written since the counters were last cleared, as its key. */
    ghost var lines: seq<string>

    ghost predicate Valid()
      reads this
    {
      && Total(counts) == |lines|
      && (forall k :: k in counts <==> k in lines)
      && (forall k :: k in counts ==> |SplitSpaces(k)| >= 3 && counts[k] == multiset(lines)[k])
    }

    constructor ()
      ensures Valid() && lines == []
    {
      counts, lines := map[], [];
    }

    /** The counting half of `emit`. */
    method Emit(component: string, event: string, stated: Stated)
      requires Valid()
      modifies this
      ensures Valid() && lines == old(lines) + [CounterKey(component, event, Reason(stated))]
    {
      var k := CounterKey(component, event, Reason(stated));
      KeyHasThreeParts(component, event, Reason(stated));
      TotalAfterIncrement(counts, k);
      assert k !in counts ==> multiset(lines)[k] == 0;
      counts := counts[k := (if k in counts then counts[k] else 0) + 1];
      lines := lines + [k];
    }

    method ResetCountsForTest()
      modifies this
      ensures Valid() && lines == []
    {
      counts, lines := map[], [];
    }

    /**
     * `eventCounts`, before sorting: one row per kind of event, each counting exactly its lines, so
     * that the counts always sum to the number of lines written.
     */
    method EventCounts() returns (rows: seq<EventCount>)
      requires Valid()
      ensures Sum(rows) == |lines|
      ensures forall row :: row in rows ==> CountsItsLines(row, lines)
      ensures |rows| == |counts|
    {
      rows := [];
      var left := counts;
      while left != map[]
        invariant forall k :: k in left ==> k in counts && left[k] == counts[k]
        invariant Sum(rows) + Total(left) == |lines|
        invariant forall row :: row in rows ==> CountsItsLines(row, lines)
        invariant |rows| + |left| == |counts|
        decreases |left|
      {
        var k :| k in left;
        var parts := SplitSpaces(k);
        var row := EventCount(parts[0], parts[1], parts[2], left[k]);
        RowCountsItsLines(row, lines, k);
        SumAppends(rows, row);
        TotalWithout(left, k);
        SmallerWithout(left, k);
        rows := rows + [row];
        left := left - {k};
      }
    }
  }
}
