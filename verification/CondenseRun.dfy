/**
 * scripts/mutation-verdict.ts, `condenseRun`: a run's output cut down to its two ends without
 * losing what the verdict turns on. The stream is the sequence of texts the decoder hands over.
 */
module CondenseRun {
  import opened Texts
  import Json
  import opened Counting

  const FAIL_MARKER := "(fail)"
  const VERDICT_PHRASES := ["hook timed out", "hook failed", "hook threw", "net::ERR_"]

  datatype CapturedRun = CapturedRun(text: string, named: int)

  // ----- Pieces of the source language -----

  /** `s.slice(-n)`: the last `n` characters, and all of them for `n` 0, since -0 is 0. */
  function SliceLast(s: string, n: nat): string {
    if n == 0 || |s| <= n then s else s[|s| - n..]
  }

  /** `t.split(FAIL_MARKER).length - 1`: markers found from the left, none overlapping another. */
  function Splits(t: string): nat {
    if |t| < 6 then 0 else if t[..6] == FAIL_MARKER then 1 + Splits(t[6..]) else Splits(t[1..])
  }

  /** In how many places of `t` a marker begins. */
  function Markers(t: string): nat {
    if |t| < 6 then 0 else (if t[..6] == FAIL_MARKER then 1 else 0) + Markers(t[1..])
  }

  function Join(chunks: seq<string>): string {
    if chunks == [] then "" else chunks[0] + Join(chunks[1..])
  }

  // ----- What is looked for -----

  function Distinct(s: seq<string>): (r: seq<string>)
    ensures forall x :: x in r <==> x in s
    ensures forall i, j :: 0 <= i < j < |r| ==> r[i] != r[j]
  {
    if s == [] then []
    else
      var r := Distinct(s[..|s| - 1]);
      assert s == s[..|s| - 1] + [s[|s| - 1]];
      if s[|s| - 1] in r then r else r + [s[|s| - 1]]
  }

  function NonEmpty(s: seq<string>): (r: seq<string>)
    ensures forall x :: x in r <==> x in s && x != ""
  {
    if s == [] then [] else (if s[0] == "" then [] else [s[0]]) + NonEmpty(s[1..])
  }

  function Wanted(signals: seq<string>): seq<string> { NonEmpty(Distinct(signals + VERDICT_PHRASES)) }

  predicate IsVerdictPhrase(s: string) {
    s == "hook timed out" || s == "hook failed" || s == "hook threw" || s == "net::ERR_"
  }

  /** What is looked for: every string the caller names, and the four phrases. */
  lemma WantedIs(signals: seq<string>, s: string)
    ensures s in Wanted(signals) <==> s != "" && (s in signals || IsVerdictPhrase(s))
  {
    var p := VERDICT_PHRASES;
    assert p[0] == "hook timed out" && p[1] == "hook failed" && p[2] == "hook threw" && p[3] == "net::ERR_";
    assert s in signals + p <==> s in signals || s in p;
  }

  function Longest(s: seq<string>): (n: nat)
    ensures forall x :: x in s ==> |x| <= n
  {
    if s == [] then 0
    else
      assert s == [s[0]] + s[1..];
      var rest := Longest(s[1..]);
      if |s[0]| > rest then |s[0]| else rest
  }

  /** `found` lists, once each, the wanted strings that occur in `text`. */
  ghost predicate Lists(found: seq<string>, wanted: seq<string>, text: string) {
    && (forall s :: s in found <==> s in wanted && Occurs(s, text))
    && (forall i, j :: 0 <= i < j < |found| ==> found[i] != found[j])
  }

  // ----- The condensed text -----

  function Printed(found: seq<string>): string {
    if found == [] then ""
    else if |found| == 1 then Json.Quote(found[0])
    else Json.Quote(found[0]) + (", " + Printed(found[1..]))
  }

  function Opening(dropped: nat, named: bool): string {
    "\n\n\U{2026} " + Decimal(dropped) +
    if named then " characters not shown; the run printed " else " characters not shown"
  }

  const CLOSING := " \U{2026}\n\n"

  function Note(dropped: nat, found: seq<string>): string {
    Opening(dropped, found != []) + (Printed(found) + CLOSING)
  }

  function Dropped(text: string, keep: nat): nat
    requires |text| > 2 * keep
  {
    |text| - keep - |SliceLast(text, keep)|
  }

  /** The whole of a short text; otherwise its two ends around a note of what is between them. */
  function Condensed(text: string, keep: nat, found: seq<string>): string {
    if |text| <= 2 * keep then text
    else text[..keep] + (Note(Dropped(text, keep), found) + SliceLast(text, keep))
  }

  // ----- Searching a window -----

  lemma {:induction false} SplitsAreMarkers(t: string)
    ensures Splits(t) == Markers(t)
    decreases |t|
  {
    if |t| >= 6 {
      if t[..6] == FAIL_MARKER {
        SplitsAreMarkers(t[6..]);
        NoneInside(t);
      } else {
        SplitsAreMarkers(t[1..]);
      }
    }
  }

  /** Two markers never overlap. */
  lemma NoneInside(t: string)
    requires |t| >= 6 && t[..6] == FAIL_MARKER
    ensures Markers(t[1..]) == Markers(t[6..])
  {
    assert t[1] == 'f' && t[2] == 'a' && t[3] == 'i' && t[4] == 'l' && t[5] == ')' by {
      assert forall k :: 0 <= k < 6 ==> t[k] == t[..6][k];
    }
    NotAMarker(t[1..]);
    assert t[1..][1..] == t[2..];
    NotAMarker(t[2..]);
    assert t[2..][1..] == t[3..];
    NotAMarker(t[3..]);
    assert t[3..][1..] == t[4..];
    NotAMarker(t[4..]);
    assert t[4..][1..] == t[5..];
    NotAMarker(t[5..]);
    assert t[5..][1..] == t[6..];
  }

  lemma NotAMarker(t: string)
    requires t != "" && t[0] != '('
    ensures Markers(t) == Markers(t[1..])
  {
    if |t| >= 6 { assert t[..6][0] == t[0]; }
  }

  lemma {:induction false} WindowCountsMarkers(p: string, carry: string, text: string)
    requires p == "" || |carry| >= 5
    ensures Markers(p + carry + text) - Markers(p + carry) == Markers(carry + text) - Markers(carry)
  {
    if p == "" {
      assert p + carry == carry && p + carry + text == carry + text;
    } else {
      WindowCountsMarkers(p[1..], carry, text);
      var a, b := p + carry + text, p + carry;
      assert a[1..] == p[1..] + carry + text && b[1..] == p[1..] + carry;
      SameFirstMarker(a, b);
    }
  }

  /** Whether a marker begins a text is told by its first six characters. */
  lemma SameFirstMarker(a: string, b: string)
    requires |a| >= 6 && |b| >= 6 && forall k :: 0 <= k < 6 ==> a[k] == b[k]
    ensures Markers(a) - Markers(a[1..]) == Markers(b) - Markers(b[1..])
  {
    assert a[..6] == b[..6];
  }

  /** A string occurs in the text so far exactly when it did before or does in the window. */
  lemma WindowFindsNew(s: string, p: string, carry: string, text: string)
    requires p == "" || |carry| >= |s| - 1
    ensures Occurs(s, p + carry + text) <==> Occurs(s, p + carry) || Occurs(s, carry + text)
  {
    var all := p + carry + text;
    assert all == (p + carry) + text && all == p + (carry + text);
    if Occurs(s, all) {
      var k :| 0 <= k <= |all| && OccursAt(s, all, k);
      if k >= |p| {
        OccursElsewhere(s, all, k, carry + text, k - |p|);
      } else {
        OccursElsewhere(s, all, k, p + carry, k);
      }
    }
    if Occurs(s, p + carry) {
      OccursInside(s, "", p + carry, text);
      assert "" + (p + carry) + text == all;
    }
    if Occurs(s, carry + text) {
      OccursInside(s, p, carry + text, "");
      assert p + (carry + text) + "" == all;
    }
  }

  // ----- The closure `take` and its variables -----

  class Condenser {
    const wanted: seq<string>
    const keep: nat
    const longest: nat
    var carry: string
    var seen: nat
    var whole: bool       // whether `text` still holds the whole stream
    var text: string
    var head: string
    var tail: string
    var named: int
    var found: seq<string>

    constructor (signals: seq<string>, keep: nat)
      ensures Valid("") && wanted == Wanted(signals) && this.keep == keep
    {
      wanted := Wanted(signals);
      this.keep := keep;
      longest := Longest(Wanted(signals));
      carry, seen, whole, text, head, tail, named, found := "", 0, true, "", "", "", 0, [];
      new;
      NothingYet(signals);
    }

    /** What the variables hold once `all` has been taken. */
    ghost predicate Valid(all: string)
      reads this
    {
      && longest >= 14 && (forall s :: s in wanted ==> |s| <= longest)
      && seen == |all| && carry == SliceLast(all, longest - 1)
      && named == Markers(all) && Lists(found, wanted, all)
      && EndsKept(all)
    }

    ghost predicate EndsKept(all: string)
      reads this
    {
      && (whole <==> |all| <= 2 * keep)
      && if whole then text == all else head == all[..keep] && tail == SliceLast(all, keep)
    }

    method Take(piece: string, ghost all: string)
      requires Valid(all)
      modifies this
      ensures Valid(all + piece)
    {
      if |piece| == 0 {
        assert all + piece == all;
        return;
      }
      seen := seen + |piece|;
      Search(piece, all);
      KeepEnds(piece, all);
    }

    /** The half of `take` that searches the window. */
    method Search(piece: string, ghost all: string)
      requires longest >= 14 && (forall s :: s in wanted ==> |s| <= longest)
      requires carry == SliceLast(all, longest - 1) && named == Markers(all) && Lists(found, wanted, all)
      modifies this`carry, this`named, this`found
      ensures carry == SliceLast(all + piece, longest - 1)
      ensures named == Markers(all + piece) && Lists(found, wanted, all + piece)
    {
      var window := carry + piece;
      Find(window, all, piece);
      ghost var p := all[..|all| - |carry|];
      assert all == p + carry;
      WindowCountsMarkers(p, carry, piece);
      SplitsAreMarkers(window);
      SplitsAreMarkers(carry);
      named := named + Splits(window) - Splits(carry);
      SliceLastOfWindow(p, carry, piece, longest - 1);
      carry := SliceLast(window, longest - 1);
    }

    /** The half of `take` that keeps the two ends. */
    method KeepEnds(piece: string, ghost all: string)
      requires EndsKept(all)
      modifies this`whole, this`text, this`head, this`tail
      ensures EndsKept(all + piece)
    {
      if whole {
        text := text + piece;
        if |text| > keep * 2 {
          head := text[..keep];
          tail := SliceLast(text, keep);
          whole := false;
        }
        return;
      }
      assert (all + piece)[..keep] == all[..keep];
      ghost var p := all[..|all| - |tail|];
      assert p + tail == all;
      SliceLastOfWindow(p, tail, piece, keep);
      tail := SliceLast(tail + piece, keep);
    }

    /** `for (const s of wanted) if (window.includes(s)) found.add(s)`. */
    method Find(window: string, ghost all: string, ghost piece: string)
      requires longest >= 14 && (forall s :: s in wanted ==> |s| <= longest)
      requires carry == SliceLast(all, longest - 1) && window == carry + piece
      requires Lists(found, wanted, all)
      modifies this`found
      ensures Lists(found, wanted, all + piece)
    {
      ghost var p := all[..|all| - |carry|];
      assert all == p + carry;
      forall s | s in wanted ensures Occurs(s, all + piece) <==> Occurs(s, all) || Occurs(s, window) {
        WindowFindsNew(s, p, carry, piece);
      }
      for k := 0 to |wanted|
        invariant forall s :: s in found <==> s in wanted && (Occurs(s, all) || (s in wanted[..k] && Occurs(s, window)))
        invariant forall i, j :: 0 <= i < j < |found| ==> found[i] != found[j]
      {
        var s := wanted[k];
        assert wanted[..k + 1] == wanted[..k] + [s];
        if Occurs(s, window) && s !in found {
          found := found + [s];
        }
      }
      assert wanted[..|wanted|] == wanted;
    }
  }

  /** In no text nothing is found; the longest phrase looked for has fourteen characters at least. */
  lemma NothingYet(signals: seq<string>)
    ensures Longest(Wanted(signals)) >= 14 && Lists([], Wanted(signals), "") && Markers("") == 0
  {
    assert VERDICT_PHRASES[0] == "hook timed out" && VERDICT_PHRASES[0] in signals + VERDICT_PHRASES;
    forall s | s in Wanted(signals) ensures !Occurs(s, "") {
      assert s != "";
    }
  }

  lemma SliceLastOfWindow(p: string, carry: string, piece: string, n: nat)
    requires carry == SliceLast(p + carry, n)
    ensures SliceLast(carry + piece, n) == SliceLast(p + carry + piece, n)
  {
    assert p + carry + piece == p + (carry + piece);
    if n == 0 || |p + carry| <= n {
      assert |p| == 0;
      assert p + carry == carry;
    }
  }

  lemma {:induction false} JoinAppends(a: seq<string>, b: string)
    ensures Join(a + [b]) == Join(a) + b
  {
    if a == [] {
      assert [b][1..] == [];
    } else {
      JoinAppends(a[1..], b);
      assert (a + [b])[1..] == a[1..] + [b];
    }
  }

  /** `for await (const chunk of chunks) take(...)`. */
  method TakeAll(c: Condenser, chunks: seq<string>)
    requires c.Valid("")
    modifies c
    ensures c.Valid(Join(chunks))
  {
    assert chunks[..0] == [];
    for k := 0 to |chunks|
      invariant c.Valid(Join(chunks[..k]))
    {
      JoinAppends(chunks[..k], chunks[k]);
      assert chunks[..k + 1] == chunks[..k] + [chunks[k]];
      c.Take(chunks[k], Join(chunks[..k]));
    }
    assert chunks[..|chunks|] == chunks;
  }

  /**
   * `condenseRun`. However the text is cut into chunks: the markers of the whole text are counted,
   * the wanted strings that occur in it are found, and what comes back is the text itself or its
   * two ends around a note that says how much is missing and what was in it.
   */
  method Condense(chunks: seq<string>, signals: seq<string>, keep: nat) returns (r: CapturedRun)
    ensures r.named == |set k: nat | k <= |Join(chunks)| && OccursAt("(fail)", Join(chunks), k)|
    ensures exists found :: (
      Lists(found, Wanted(signals), Join(chunks)) && r.text == Condensed(Join(chunks), keep, found))
    ensures forall s :: s != "" && (s in signals || IsVerdictPhrase(s)) && Occurs(s, Join(chunks)) ==>
      (Occurs(s, r.text) || Occurs(Json.Quote(s), r.text)) && (Json.NeedsNoEscape(s) ==> Occurs(s, r.text))
    ensures |Join(chunks)| <= 2 * keep ==> r.text == Join(chunks)
  {
    var c := new Condenser(signals, keep);
    TakeAll(c, chunks);
    ghost var all := Join(chunks);
    if c.whole {
      r := CapturedRun(c.text, c.named);
    } else {
      var dropped := c.seen - |c.head| - |c.tail|;
      assert dropped == Dropped(all, keep);
      r := CapturedRun(c.head + (Note(dropped, c.found) + c.tail), c.named);
    }
    assert r.text == Condensed(all, keep, c.found);
    MarkersAreCounted(all);
    forall s | s != "" && (s in signals || IsVerdictPhrase(s)) && Occurs(s, all)
      ensures (Occurs(s, r.text) || Occurs(Json.Quote(s), r.text)) && (Json.NeedsNoEscape(s) ==> Occurs(s, r.text))
    {
      SignalsSurvive(all, signals, keep, c.found, s);
    }
  }

  /** The places where a marker begins. */
  function MarkersAt(t: string): set<nat> { set k: nat | k <= |t| && OccursAt("(fail)", t, k) }

  lemma {:induction false} MarkersAreCounted(t: string)
    ensures Markers(t) == |MarkersAt(t)|
  {
    if |t| < 6 {
      assert MarkersAt(t) == {};
    } else {
      MarkersAreCounted(t[1..]);
      ShiftedCount(MarkersAt(t[1..]));
      MarkersBehind(t);
      assert OccursAt("(fail)", t, 0) <==> t[..6] == FAIL_MARKER;
    }
  }

  /** The markers behind the first character, seen from it and from the next. */
  lemma MarkersBehind(t: string)
    requires |t| >= 6
    ensures MarkersAt(t) - {0} == Shifted(MarkersAt(t[1..]))
  {
    forall k: nat | k in MarkersAt(t) && k != 0 ensures k in Shifted(MarkersAt(t[1..])) {
      OccursOneOn("(fail)", t, k - 1);
      assert k - 1 in MarkersAt(t[1..]);
    }
    forall k: nat | k in MarkersAt(t[1..]) ensures k + 1 in MarkersAt(t) {
      OccursOneOn("(fail)", t, k);
    }
  }

  lemma OccursOneOn(s: string, t: string, k: nat)
    requires t != ""
    ensures OccursAt(s, t[1..], k) <==> OccursAt(s, t, k + 1)
  {
    if OccursAt(s, t, k + 1) { OccursElsewhere(s, t, k + 1, t[1..], k); }
    if OccursAt(s, t[1..], k) { OccursElsewhere(s, t[1..], k, t, k + 1); }
  }

  // ----- What the result still shows -----

  lemma OccursLeft(s: string, a: string, b: string)
    requires Occurs(s, a)
    ensures Occurs(s, a + b)
  {
    OccursInside(s, "", a, b);
    assert "" + a + b == a + b;
  }

  lemma OccursRight(s: string, a: string, b: string)
    requires Occurs(s, b)
    ensures Occurs(s, a + b)
  {
    OccursInside(s, a, b, "");
    assert a + b + "" == a + b;
  }

  lemma OccursInItself(s: string)
    ensures Occurs(s, s)
  {
    assert OccursAt(s, s, 0);
  }

  /** What occurs inside the quotes occurs. */
  lemma OccursUnquoted(s: string, t: string)
    requires Occurs("\"" + s + "\"", t)
    ensures Occurs(s, t)
  {
    var q := "\"" + s + "\"";
    var k :| 0 <= k <= |t| && OccursAt(q, t, k);
    forall i | 1 <= i < 1 + |s| ensures q[i] == t[i - 1 + (k + 1)] {
      assert t[k..k + |q|][i] == t[k + i];
    }
    assert q[1..1 + |s|] == s;
    OccursElsewhere(s, q, 1, t, k + 1);
  }

  lemma {:induction false} PrintedShowsEach(found: seq<string>, s: string)
    requires s in found
    ensures Occurs(Json.Quote(s), Printed(found))
  {
    var q, first := Json.Quote(s), Json.Quote(found[0]);
    if found[0] == s {
      OccursInItself(q);
      if |found| > 1 { OccursLeft(q, first, ", " + Printed(found[1..])); }
    } else {
      PrintedShowsEach(found[1..], s);
      OccursRight(q, ", ", Printed(found[1..]));
      OccursRight(q, first, ", " + Printed(found[1..]));
    }
  }

  lemma NoteShowsEach(dropped: nat, found: seq<string>, s: string)
    requires s in found
    ensures Occurs(Json.Quote(s), Note(dropped, found))
  {
    PrintedShowsEach(found, s);
    OccursLeft(Json.Quote(s), Printed(found), CLOSING);
    OccursRight(Json.Quote(s), Opening(dropped, found != []), Printed(found) + CLOSING);
  }

  /**
   * No signal is lost: one that occurs anywhere in the text occurs in what comes back, as itself
   * when it needs no JSON escaping and otherwise as its quoted form if the text was shortened.
   */
  lemma SignalsSurvive(text: string, signals: seq<string>, keep: nat, found: seq<string>, s: string)
    requires Lists(found, Wanted(signals), text) && Occurs(s, text)
    requires s != "" && (s in signals || IsVerdictPhrase(s))
    ensures Occurs(s, Condensed(text, keep, found)) || Occurs(Json.Quote(s), Condensed(text, keep, found))
    ensures Json.NeedsNoEscape(s) ==> Occurs(s, Condensed(text, keep, found))
  {
    WantedIs(signals, s);
    if |text| > 2 * keep {
      var q := Json.Quote(s);
      var note := Note(Dropped(text, keep), found);
      NoteShowsEach(Dropped(text, keep), found, s);
      OccursLeft(q, note, SliceLast(text, keep));
      OccursRight(q, text[..keep], note + SliceLast(text, keep));
      if Json.NeedsNoEscape(s) {
        Json.UnescapedIsItself(s);
        OccursUnquoted(s, Condensed(text, keep, found));
      }
    }
  }

  /** With at least one character kept, what is missing is exactly what lies between the two ends. */
  lemma EndsAreExact(text: string, keep: nat)
    requires keep > 0 && |text| > 2 * keep
    ensures Dropped(text, keep) == |text| - 2 * keep
    ensures text == text[..keep] + text[keep..keep + Dropped(text, keep)] + SliceLast(text, keep)
  {
  }

  /** What was found is listed in its order, each in quotes, with a comma and a space between any two. */
  lemma {:induction false} PrintedIs(found: seq<string>, more: seq<string>)
    ensures |found| == 1 ==> Printed(found) == "\"" + Json.Escape(found[0]) + "\""
    ensures found != [] && more != [] ==> Printed(found + more) == Printed(found) + (", " + Printed(more))
  {
    if found != [] && more != [] {
      var both := found + more;
      assert both[0] == found[0] && both[1..] == found[1..] + more;
      if |found| == 1 {
        assert both[1..] == more;
      } else {
        PrintedIs(found[1..], more);
        CommaJoins(Json.Quote(found[0]), Printed(found[1..]), Printed(more));
      }
    }
  }

  lemma CommaJoins(a: string, b: string, c: string)
    ensures a + (", " + (b + (", " + c))) == a + (", " + b) + (", " + c)
  {
  }

  /** What is said in place of the rest: how many characters it had, and what was found, if anything was. */
  lemma NoteReads(text: string, keep: nat, found: seq<string>)
    requires keep > 0 && |text| > 2 * keep
    ensures Condensed(text, keep, found)
         == text[..keep] + (("\n\n\U{2026} " + Decimal(|text| - 2 * keep)
              + (if found == [] then " characters not shown" else " characters not shown; the run printed "))
              + (Printed(found) + " \U{2026}\n\n") + text[|text| - keep..])
    ensures Printed([]) == ""
  {
  }

  /** With none kept, `slice(-0)` keeps everything and the note says nothing is missing. */
  lemma KeepingNothingKeepsEverything(text: string)
    requires text != ""
    ensures Dropped(text, 0) == 0 && SliceLast(text, 0) == text
  {
  }
}
