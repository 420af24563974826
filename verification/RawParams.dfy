/**
 * packages/hub/src/raw-params.ts: the exact text of the `params` member of a received request,
 * found by scanning and without parsing.
 *
 * The scanner is stated on the text still to be read (`AfterString`, `AfterValue`, `Scan`); the
 * methods below walk an index over the whole text, as the source does, and are proved to compute
 * those functions. What the functions mean is proved against the JSON grammar and printer.
 */
module RawParams {
  import opened Wrappers
  import opened Json

  /** What `\s` matches in an ECMAScript regular expression: more than JSON's four. */
  predicate IsJsSpace(c: char) {
    || c == ' ' || '\t' <= c <= '\r' || c == '\U{a0}' || c == '\U{1680}'
    || '\U{2000}' <= c <= '\U{200a}' || c == '\U{2028}' || c == '\U{2029}'
    || c == '\U{202f}' || c == '\U{205f}' || c == '\U{3000}' || c == '\U{feff}'
  }

  function DropSpace(s: string): (r: string)
    ensures |r| <= |s|
    ensures r != "" ==> !IsJsSpace(r[0])
  {
    if s != "" && IsJsSpace(s[0]) then DropSpace(s[1..]) else s
  }

  /** What is left of `s`, which starts inside a string, after the string's closing quote. */
  function AfterString(s: string): (r: string)
    ensures |r| <= |s|
  {
    if s == "" then ""
    else if s[0] == '\\' then (if |s| == 1 then "" else AfterString(s[2..]))
    else if s[0] == '"' then s[1..]
    else AfterString(s[1..])
  }

  predicate Opens(c: char) { c == '{' || c == '[' }

  predicate Closes(c: char) { c == '}' || c == ']' }

  /** What is left of `s`, read with `depth` brackets open, after the bracket that closes the last. */
  function AfterNest(s: string, depth: int): (r: string)
    ensures |r| <= |s|
    decreases |s|
  {
    if s == "" then ""
    else if s[0] == '"' then AfterNest(AfterString(s[1..]), depth)
    else if Opens(s[0]) then AfterNest(s[1..], depth + 1)
    else if Closes(s[0]) then (if depth - 1 == 0 then s[1..] else AfterNest(s[1..], depth - 1))
    else AfterNest(s[1..], depth)
  }

  predicate EndsLiteral(c: char) { c == ',' || c == '}' || c == ']' || IsSpace(c) }

  function AfterLiteral(s: string): (r: string)
    ensures |r| <= |s|
  {
    if s == "" || EndsLiteral(s[0]) then s else AfterLiteral(s[1..])
  }

  /** What is left of `s` after the value it starts with. */
  function AfterValue(s: string): (r: string)
    ensures |r| <= |s|
  {
    if s == "" then ""
    else if s[0] == '"' then AfterString(s[1..])
    else if Opens(s[0]) then AfterNest(s, 0)
    else AfterLiteral(s)
  }

  /** `s` without its suffix `r`. */
  function Before(s: string, r: string): string
    requires |r| <= |s|
  {
    s[..|s| - |r|]
  }

  const QUOTED_PARAMS := "\"params\""

  /** The answer for a `params` key that has been read, `s` being what follows it: None means no colon. */
  function ValueAfterKey(s: string): Option<Option<string>> {
    var colon := DropSpace(s);
    if colon == "" || colon[0] != ':' then None
    else
      var value := DropSpace(colon[1..]);
      var rest := AfterValue(value);
      Some(if |rest| < |value| then Some(Before(value, rest)) else None)
  }

  /** The scan of what is left of the text, with `depth` brackets open. */
  function Scan(s: string, depth: int): Option<string>
    decreases |s|
  {
    if s == "" then None
    else if s[0] == '"' then
      var rest := AfterString(s[1..]);
      if depth == 1 && Before(s, rest) == QUOTED_PARAMS && ValueAfterKey(rest).Some?
      then ValueAfterKey(rest).value
      else Scan(rest, depth)
    else Scan(s[1..], if Opens(s[0]) then depth + 1 else if Closes(s[0]) then depth - 1 else depth)
  }

  // ----- The loops of the source -----

  function Min(a: int, b: int): int { if a < b then a else b }

  /** What is left of `text` at index `i`, which the escape rule may have pushed one past the end. */
  function From(text: string, i: nat): string { text[Min(i, |text|)..] }

  lemma FromStep(text: string, i: nat)
    requires i < |text|
    ensures var s := From(text, i);
      && s != "" && s[0] == text[i] && s[1..] == From(text, i + 1)
      && (|s| == 1 <==> i + 1 == |text|)
      && (i + 1 < |text| ==> s[2..] == From(text, i + 2))
  {
  }

  method SkipString(text: string, start: nat) returns (i: nat)
    requires start < |text|
    ensures start < i <= |text| + 1
    ensures From(text, i) == AfterString(From(text, start + 1))
  {
    i := start + 1;
    while i < |text|
      invariant start < i <= |text| + 1
      invariant AfterString(From(text, i)) == AfterString(From(text, start + 1))
    {
      var ch := text[i];
      FromStep(text, i);
      if ch == '\\' {
        i := i + 2;
        continue;
      }
      if ch == '"' {
        return i + 1;
      }
      i := i + 1;
    }
  }

  /** The loop of `skipValue` over a value that opens with a bracket. */
  method SkipNest(text: string, start: nat) returns (i: nat)
    requires start <= |text|
    ensures start <= i <= |text| + 1
    ensures From(text, i) == AfterNest(From(text, start), 0)
  {
    i := start;
    var depth := 0;
    while i < |text|
      invariant start <= i <= |text| + 1
      invariant AfterNest(From(text, i), depth) == AfterNest(From(text, start), 0)
    {
      var c := text[i];
      FromStep(text, i);
      if c == '"' {
        i := SkipString(text, i);
        continue;
      }
      if Opens(c) {
        depth := depth + 1;
      } else if Closes(c) {
        depth := depth - 1;
        if depth == 0 {
          return i + 1;
        }
      }
      i := i + 1;
    }
  }

  /** The loop of `skipValue` over a number, `true`, `false` or `null`. */
  method SkipLiteral(text: string, start: nat) returns (i: nat)
    requires start <= |text|
    ensures start <= i <= |text|
    ensures From(text, i) == AfterLiteral(From(text, start))
  {
    i := start;
    while i < |text| && !EndsLiteral(text[i])
      invariant start <= i <= |text|
      invariant AfterLiteral(From(text, i)) == AfterLiteral(From(text, start))
    {
      FromStep(text, i);
      i := i + 1;
    }
    if i < |text| { FromStep(text, i); }
  }

  method SkipValue(text: string, start: nat) returns (i: nat)
    requires start <= |text|
    ensures start <= i <= |text| + 1
    ensures From(text, i) == AfterValue(From(text, start))
    ensures start == |text| ==> i == start
  {
    if start < |text| {
      FromStep(text, start);
      if text[start] == '"' {
        i := SkipString(text, start);
        return;
      }
      if Opens(text[start]) {
        i := SkipNest(text, start);
        return;
      }
    }
    i := SkipLiteral(text, start);
  }

  /** The `while (j < n && /\s/.test(text[j]))` loop. */
  method SkipSpace(text: string, start: nat) returns (j: nat)
    requires start <= |text| + 1
    ensures start <= j <= |text| + 1
    ensures From(text, j) == DropSpace(From(text, start))
    ensures start <= |text| ==> j <= |text|
  {
    j := start;
    while j < |text| && IsJsSpace(text[j])
      invariant start <= j <= |text| + 1
      invariant start <= |text| ==> j <= |text|
      invariant DropSpace(From(text, j)) == DropSpace(From(text, start))
    {
      FromStep(text, j);
      j := j + 1;
    }
  }

  /** `text.slice(a, b)`, whose bounds the language clamps. */
  function Slice(text: string, a: nat, b: nat): string
    requires a <= b
  {
    text[Min(a, |text|)..Min(b, |text|)]
  }

  lemma SliceIsBefore(text: string, a: nat, b: nat)
    requires a <= b
    ensures Slice(text, a, b) == Before(From(text, a), From(text, b))
  {
  }

  predicate IsPiece(text: string, piece: string) {
    exists a, b :: 0 <= a < b <= |text| && piece == text[a..b]
  }

  /** The text of the value that begins, after any space, at `i`. */
  method ReadValue(text: string, i: nat) returns (r: Option<string>)
    requires i <= |text|
    ensures var value := DropSpace(From(text, i));
      r == if |AfterValue(value)| < |value| then Some(Before(value, AfterValue(value))) else None
    ensures r.Some? ==> IsPiece(text, r.value)
  {
    var j := SkipSpace(text, i);
    var end := SkipValue(text, j);
    SliceIsBefore(text, j, end);
    if end > j {
      assert Slice(text, j, end) == text[j..Min(end, |text|)];
      return Some(Slice(text, j, end));
    }
    return None;
  }

  /** What the source does once a key `"params"` at depth 1 has been read up to `i`. */
  method ReadAfterKey(text: string, i: nat) returns (r: Option<Option<string>>)
    requires i <= |text| + 1
    ensures r == ValueAfterKey(From(text, i))
    ensures r.Some? && r.value.Some? ==> IsPiece(text, r.value.value)
  {
    var j := SkipSpace(text, i);
    if j < |text| {
      FromStep(text, j);
      if text[j] == ':' {
        var value := ReadValue(text, j + 1);
        return Some(value);
      }
    }
    return None;
  }

  /**
   * `rawParams`. On any text at all it terminates, computes `Scan`, and answers nothing or a
   * non-empty piece of the text.
   */
  method FindRawParams(text: string) returns (r: Option<string>)
    ensures r == Scan(text, 0)
    ensures r.Some? ==> IsPiece(text, r.value)
  {
    var depth := 0;
    var i: nat := 0;
    while i < |text|
      invariant i <= |text| + 1
      invariant Scan(From(text, i), depth) == Scan(text, 0)
    {
      var ch := text[i];
      FromStep(text, i);
      if ch == '"' {
        var start := i;
        i := SkipString(text, i);
        SliceIsBefore(text, start, i);
        if depth == 1 && Slice(text, start, i) == QUOTED_PARAMS {
          var found := ReadAfterKey(text, i);
          if found.Some? {
            return found.value;
          }
        }
        continue;
      }
      if Opens(ch) {
        depth := depth + 1;
      } else if Closes(ch) {
        depth := depth - 1;
      }
      i := i + 1;
    }
    return None;
  }
}
