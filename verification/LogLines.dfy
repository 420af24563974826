/**
 * packages/log/src/index.ts: one line a person and a program both read, the recorder that splits
 * it again, and the counters that shadow the lines.
 */
module LogLines {
  import opened Texts
  import opened Json

  datatype Level = Error | Warn | Info

  function LevelText(l: Level): string {
    match l case Error => "error" case Warn => "warn" case Info => "info"
  }

  const TAIL := " {\"ts\":\""

  // ----- Searching and slicing as the source language does -----

  /** `t.indexOf(s)` from `k` on, -1 when there is none. */
  function IndexFrom(s: string, t: string, k: nat): (r: int)
    requires k <= |t|
    ensures r == -1 || (k <= r && OccursAt(s, t, r))
    ensures forall j :: k <= j < (if r == -1 then |t| + 1 else r) ==> !OccursAt(s, t, j)
    decreases |t| - k
  {
    if OccursAt(s, t, k) then k else if k == |t| then -1 else IndexFrom(s, t, k + 1)
  }

  /** `t.lastIndexOf(s)` down from `k`. */
  function LastIndexFrom(s: string, t: string, k: nat): (r: int)
    requires k <= |t|
    ensures r == -1 || (r <= k && OccursAt(s, t, r))
    ensures forall j :: r < j <= k ==> !OccursAt(s, t, j)
  {
    if OccursAt(s, t, k) then k else if k == 0 then -1 else LastIndexFrom(s, t, k - 1)
  }

  function Bound(i: int, n: nat): nat {
    if i < 0 then (if i + n < 0 then 0 else i + n) else if i > n then n else i
  }

  /** `t.slice(a, b)`: negative bounds count from the end. */
  function Slice(t: string, a: int, b: int): string {
    var lo, hi := Bound(a, |t|), Bound(b, |t|);
    if lo < hi then t[lo..hi] else ""
  }

  // ----- The line and its two halves -----

  function Head(ts: string, level: Level, component: string): string {
    ts + (" " + (LevelText(level) + (" [" + (component + "] "))))
  }

  /** `render`, `payload` being the JSON text of the event. */
  function Render(ts: string, level: Level, component: string, sentence: string, payload: string): string {
    Head(ts, level, component) + (sentence + (" " + payload))
  }

  /** The line as a person reads it, the level in its own word. */
  lemma LineReads(ts: string, level: Level, component: string, sentence: string, payload: string)
    ensures var word := if level == Error then "error" else if level == Warn then "warn" else "info";
      Render(ts, level, component, sentence, payload)
        == ts + " " + word + " [" + component + "] " + sentence + " " + payload
  {
    var word := LevelText(level);
    assert Head(ts, level, component) == ts + " " + word + " [" + component + "] ";
    Regroup(Head(ts, level, component), sentence, payload);
  }

  lemma Regroup(head: string, sentence: string, payload: string)
    ensures head + (sentence + (" " + payload)) == head + sentence + " " + payload
  {
  }

  datatype Halves = Halves(sentence: string, payload: string)

  /** What the recorder does with a line. */
  function Split(component: string, line: string): Halves {
    var cut := LastIndexFrom(TAIL, line, |line|);
    var start := IndexFrom("[" + component + "] ", line, 0) + |component| + 3;
    Halves(Slice(line, start, cut), Slice(line, cut + 1, |line|))
  }

  /** `JSON.stringify` writes no whitespace outside strings. */
  predicate Compact(v: Value) {
    match v
    case Literal(_) => true
    case Str(_) => true
    case Arr(pad, elems) => pad == "" && CompactElems(elems)
    case Obj(pad, members) => pad == "" && CompactMembers(members)
  }

  predicate CompactElems(es: Elems) {
    match es
    case NoElems => true
    case Elem(lead, value, trail, rest) => lead == "" && trail == "" && Compact(value) && CompactElems(rest)
  }

  predicate CompactMembers(ms: Members) {
    match ms
    case NoMembers => true
    case Member(lead, _, gap, space, value, trail, rest) =>
      lead == "" && gap == "" && space == "" && trail == "" && Compact(value) && CompactMembers(rest)
  }

  // ----- The tail marker cannot occur inside a JSON text -----

  datatype Place = Outside | AfterString | Inside

  /**
   * Read as JSON from `place`, `s` has no space outside its strings, no escaped space, and no `t`
   * straight after a string.
   */
  predicate Clean(s: string, place: Place)
    decreases |s|
  {
    if s == "" then true
    else if place == Inside then
      if s[0] == '\\' then |s| >= 2 && s[1] != ' ' && Clean(s[2..], Inside)
      else Clean(s[1..], if s[0] == '"' then AfterString else Inside)
    else
      s[0] != ' ' && (place == AfterString ==> s[0] != 't') && Clean(s[1..], if s[0] == '"' then Inside else Outside)
  }

  lemma {:induction false} CleanHasNoTail(s: string, place: Place, k: nat)
    requires Clean(s, place)
    ensures !OccursAt(TAIL, s, k)
    decreases |s|
  {
    if k <= |s| - |TAIL| {
      if k == 0 {
        TailStart(s, place);
      } else if place == Inside && s[0] == '\\' {
        if k == 1 {
          assert s[1] != ' ';
          assert s[k..k + |TAIL|][0] == s[1];
        } else {
          CleanHasNoTail(s[2..], Inside, k - 2);
          assert s[2..][k - 2..k - 2 + |TAIL|] == s[k..k + |TAIL|];
        }
      } else {
        CleanHasNoTail(s[1..], if place == Inside then (if s[0] == '"' then AfterString else Inside)
                               else if s[0] == '"' then Inside else Outside, k - 1);
        assert s[1..][k - 1..k - 1 + |TAIL|] == s[k..k + |TAIL|];
      }
    }
  }

  lemma TailStart(s: string, place: Place)
    requires Clean(s, place) && |s| >= |TAIL|
    ensures s[0] != ' ' || s[1] != '{' || s[2] != '"' || s[3] != 't'
    ensures !OccursAt(TAIL, s, 0)
  {
    if s[0] == ' ' && s[1] == '{' && s[2] == '"' {
      assert place == Inside && Clean(s[1..], Inside);
      assert s[1..][1..] == s[2..] && Clean(s[2..], Inside);
      assert s[2..][1..] == s[3..] && Clean(s[3..], AfterString);
    }
    assert forall j :: 0 <= j < 4 ==> s[0..0 + |TAIL|][j] == s[j];
  }

  lemma CleanAfterOutside(s: string)
    requires Clean(s, AfterString)
    ensures Clean(s, Outside)
  {
  }

  lemma {:induction false} PlainIsClean(text: string, rest: string)
    requires AllPlain(text) && Clean(rest, Outside)
    ensures Clean(text + rest, Outside)
  {
    if text == "" {
      assert text + rest == rest;
    } else {
      PlainIsClean(text[1..], rest);
      assert (text + rest)[1..] == text[1..] + rest;
    }
  }

  lemma {:induction false} BodyIsClean(body: string, rest: string)
    requires IsStringBody(body) && Clean(rest, AfterString)
    ensures Clean(body + ("\"" + rest), Inside)
  {
    if body == "" {
      assert (body + ("\"" + rest))[1..] == rest;
    } else {
      var n := HeadLength(body);
      BodyIsClean(body[n..], rest);
      OnwardIsClean(body, n, "\"" + rest);
    }
  }

  function HeadLength(body: string): (n: nat)
    requires IsStringBody(body) && body != ""
    ensures 1 <= n <= |body| && IsStringBody(body[n..])
  {
    if body[0] != '\\' then 1 else if body[1] != 'u' then 2 else 6
  }

  lemma OnwardIsClean(body: string, n: nat, rest: string)
    requires IsStringBody(body) && body != "" && n == HeadLength(body) && Clean(body[n..] + rest, Inside)
    ensures Clean(body + rest, Inside)
  {
    var s := body + rest;
    assert s[n..] == body[n..] + rest;
    assert forall k :: 0 <= k < n ==> s[k] == body[k];
    HeadIsClean(s, n);
  }

  /** One character of a string body, or one escape sequence. */
  lemma HeadIsClean(s: string, n: nat)
    requires n <= |s| && Clean(s[n..], Inside)
    requires
      || (n == 1 && s[0] != '\\' && s[0] != '"')
      || (n == 2 && s[0] == '\\' && s[1] != ' ')
      || (n == 6 && s[0] == '\\' && s[1] == 'u' && IsHex(s[2]) && IsHex(s[3]) && IsHex(s[4]) && IsHex(s[5]))
    ensures Clean(s, Inside)
  {
    if n == 6 { UnicodeEscapeIsClean(s); }
  }

  lemma UnicodeEscapeIsClean(s: string)
    requires |s| >= 6 && s[0] == '\\' && s[1] == 'u'
    requires IsHex(s[2]) && IsHex(s[3]) && IsHex(s[4]) && IsHex(s[5]) && Clean(s[6..], Inside)
    ensures Clean(s, Inside)
  {
    OrdinaryIsClean(s, 5);
    OrdinaryIsClean(s, 4);
    OrdinaryIsClean(s, 3);
    OrdinaryIsClean(s, 2);
  }

  lemma OrdinaryIsClean(s: string, k: nat)
    requires k < |s| && s[k] != '\\' && s[k] != '"' && Clean(s[k + 1..], Inside)
    ensures Clean(s[k..], Inside)
  {
    assert s[k..][1..] == s[k + 1..];
  }

  lemma StringIsClean(body: string, rest: string)
    requires IsStringBody(body) && Clean(rest, AfterString)
    ensures Clean(EmitString(body, rest), Outside)
  {
    BodyIsClean(body, rest);
    assert EmitString(body, rest)[1..] == body + ("\"" + rest);
  }

  lemma PunctuationIsClean(c: char, rest: string)
    requires c != '"' && c != ' ' && c != 't' && Clean(rest, Outside)
    ensures Clean([c] + rest, AfterString)
  {
    assert ([c] + rest)[1..] == rest;
  }

  lemma {:induction false} ValueIsClean(v: Value, rest: string)
    requires WellFormed(v) && Compact(v) && Clean(rest, AfterString)
    ensures Clean(Emit(v, rest), Outside)
  {
    match v {
      case Literal(text) =>
        LiteralIsPlain(text);
        CleanAfterOutside(rest);
        PlainIsClean(text, rest);
      case Str(body) => StringIsClean(body, rest);
      case Arr(pad, elems) =>
        CleanAfterOutside(rest);
        PunctuationIsClean(']', rest);
        ElemsAreClean(elems, "]" + rest);
        assert pad + EmitElems(elems, "]" + rest) == EmitElems(elems, "]" + rest);
        PunctuationIsClean('[', EmitElems(elems, "]" + rest));
      case Obj(pad, members) =>
        CleanAfterOutside(rest);
        PunctuationIsClean('}', rest);
        MembersAreClean(members, "}" + rest);
        assert pad + EmitMembers(members, "}" + rest) == EmitMembers(members, "}" + rest);
        PunctuationIsClean('{', EmitMembers(members, "}" + rest));
    }
  }

  lemma {:induction false} ElemsAreClean(es: Elems, rest: string)
    requires WellFormedElems(es) && CompactElems(es) && Clean(rest, AfterString)
    ensures Clean(EmitElems(es, rest), Outside)
  {
    match es {
      case NoElems =>
      case Elem(lead, value, trail, more) =>
        if !more.NoElems? {
          ElemsAreClean(more, rest);
          PunctuationIsClean(',', EmitElems(more, rest));
        }
        var tail := EmitMoreElems(more, rest);
        assert trail + tail == tail && lead + Emit(value, tail) == Emit(value, tail);
        ValueIsClean(value, tail);
    }
  }

  lemma {:induction false} MembersAreClean(ms: Members, rest: string)
    requires WellFormedMembers(ms) && CompactMembers(ms) && Clean(rest, AfterString)
    ensures Clean(EmitMembers(ms, rest), Outside)
  {
    match ms {
      case NoMembers =>
      case Member(lead, key, gap, space, value, trail, more) =>
        if !more.NoMembers? {
          MembersAreClean(more, rest);
          PunctuationIsClean(',', EmitMembers(more, rest));
        }
        var tail := EmitMoreMembers(more, rest);
        assert trail + tail == tail && space + Emit(value, tail) == Emit(value, tail);
        ValueIsClean(value, tail);
        PunctuationIsClean(':', Emit(value, tail));
        assert gap + (":" + Emit(value, tail)) == ":" + Emit(value, tail);
        StringIsClean(key, ":" + Emit(value, tail));
        assert lead + EmitString(key, ":" + Emit(value, tail)) == EmitString(key, ":" + Emit(value, tail));
    }
  }

  // ----- Splitting recovers what was rendered -----

  predicate StartsWithTs(payload: string) { |payload| >= 7 && payload[..7] == "{\"ts\":\"" }

  lemma ComponentIsFound(ts: string, level: Level, component: string, rest: string)
    requires '[' !in ts
    ensures IndexFrom("[" + component + "] ", Head(ts, level, component) + rest, 0) + |component| + 3
         == |Head(ts, level, component)|
  {
    var line := Head(ts, level, component) + rest;
    var mark := "[" + component + "] ";
    var at := |ts| + 1 + |LevelText(level)| + 1;
    assert line[at..at + |mark|] == mark;
    forall k | 0 <= k < at ensures !OccursAt(mark, line, k) {
      NoBracketBefore(ts, level, component, rest, k);
      if OccursAt(mark, line, k) { FirstCharacter(mark, line, k); }
    }
    assert OccursAt(mark, line, at);
  }

  lemma NoBracketBefore(ts: string, level: Level, component: string, rest: string, k: nat)
    requires '[' !in ts && k < |ts| + 1 + |LevelText(level)| + 1
    ensures (Head(ts, level, component) + rest)[k] != '['
  {
    var head, name := Head(ts, level, component), LevelText(level);
    assert head[k] == if k < |ts| then ts[k]
                      else if k == |ts| || k == |ts| + 1 + |name| then ' ' else name[k - |ts| - 1];
    if k < |ts| { assert ts[k] in ts; }
  }

  /** Where the recorder cuts: at the payload if its first field is `ts`, and never inside it. */
  lemma CutIsBeforePayload(head: string, payload: string)
    requires forall k: nat :: !OccursAt(TAIL, payload, k)
    ensures var line := head + (" " + payload);
      var cut := LastIndexFrom(TAIL, line, |line|);
      if StartsWithTs(payload) then cut == |head| else cut < |head|
  {
    var line := head + (" " + payload);
    var at := |head|;
    forall k | at < k <= |line| ensures !OccursAt(TAIL, line, k) {
      if OccursAt(TAIL, line, k) { OccursElsewhere(TAIL, line, k, payload, k - at - 1); }
    }
    MarkerAtPayload(head, payload);
  }

  lemma MarkerAtPayload(head: string, payload: string)
    ensures OccursAt(TAIL, head + (" " + payload), |head|) <==> StartsWithTs(payload)
  {
    var line := head + (" " + payload);
    var at := |head|;
    var tail := "{\"ts\":\"";
    assert TAIL == " " + tail && |tail| == 7;
    assert line[at] == ' ' && line[at + 1..] == payload;
    if |payload| >= 7 {
      var piece := line[at..at + 8];
      assert piece[0] == ' ' && piece[1..] == payload[..7];
      if payload[..7] == tail { assert piece == " " + tail; }
      if piece == TAIL { assert payload[..7] == TAIL[1..]; }
    }
  }

  /**
   * For every sentence, even one that holds the tail marker, and every JSON payload: the recorder
   * recovers exactly the sentence and exactly the payload's text if and only if that text begins with
   * a text field `ts`. LogPayload.dfy says when the logger's own payload does.
   */
  lemma SplitRecoversRendered(ts: string, level: Level, component: string, sentence: string, payload: Value)
    requires '[' !in ts && WellFormed(payload) && Compact(payload)
    ensures Split(component, Render(ts, level, component, sentence, Print(payload))) == Halves(sentence, Print(payload))
      <==> StartsWithTs(Print(payload))
  {
    ValueIsClean(payload, "");
    forall k: nat ensures !OccursAt(TAIL, Print(payload), k) { CleanHasNoTail(Print(payload), Outside, k); }
    SplitRecoversText(ts, level, component, sentence, Print(payload));
  }

  lemma SplitRecoversText(ts: string, level: Level, component: string, sentence: string, text: string)
    requires '[' !in ts
    requires forall k: nat :: !OccursAt(TAIL, text, k)
    ensures Split(component, Render(ts, level, component, sentence, text)) == Halves(sentence, text)
        <==> StartsWithTs(text)
  {
    var head := Head(ts, level, component);
    var line := Render(ts, level, component, sentence, text);
    ComponentIsFound(ts, level, component, sentence + (" " + text));
    assert line == (head + sentence) + (" " + text);
    CutIsBeforePayload(head + sentence, text);
    SplitIsExactAtCut(component, line, head, sentence, text);
  }

  lemma PartsOf(head: string, sentence: string, text: string)
    ensures var line := (head + sentence) + (" " + text);
      && Slice(line, |head|, |head + sentence|) == sentence
      && Slice(line, |head + sentence| + 1, |line|) == text
  {
    var line := (head + sentence) + (" " + text);
    assert line[|head|..|head + sentence|] == sentence;
    assert line[|head + sentence| + 1..] == text;
  }

  lemma LaterSliceIsShorter(line: string, cut: int, other: int)
    requires -1 <= cut < other < |line|
    ensures |Slice(line, cut + 1, |line|)| > |Slice(line, other + 1, |line|)|
  {
  }

  lemma SplitIsExactAtCut(component: string, line: string, head: string, sentence: string, text: string)
    requires line == (head + sentence) + (" " + text)
    requires IndexFrom("[" + component + "] ", line, 0) + |component| + 3 == |head|
    requires var cut := LastIndexFrom(TAIL, line, |line|); cut <= |head + sentence|
    ensures Split(component, line) == Halves(sentence, text) <==> LastIndexFrom(TAIL, line, |line|) == |head + sentence|
  {
    var cut := LastIndexFrom(TAIL, line, |line|);
    PartsOf(head, sentence, text);
    if cut < |head + sentence| { LaterSliceIsShorter(line, cut, |head + sentence|); }
  }

  /** The logger's own payload starts with `ts` whenever the fields are printed in the order it sets them. */
  lemma PayloadStartsWithTs(stamp: string, rest: Members)
    ensures StartsWithTs(Print(Obj("", Member("", "ts", "", "", Str(Escape(stamp)), "", rest))))
  {
    var value := Str(Escape(stamp));
    var members := Member("", "ts", "", "", value, "", rest);
    var tail := "" + EmitMoreMembers(rest, "}" + "");
    var printed := "" + EmitString("ts", "" + (":" + ("" + Emit(value, tail))));
    assert EmitMembers(members, "}" + "") == printed;
    assert Print(Obj("", members)) == "{" + ("" + printed);
    var text := Print(Obj("", members));
    assert Emit(value, tail) == EmitString(value.body, tail);
    assert printed[..6] == "\"ts\":\"";
    assert text[..7] == "{" + printed[..6];
  }
}
