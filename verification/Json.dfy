/**
 * JSON text with every layout choice kept: a concrete syntax tree whose nodes carry the
 * whitespace around them, the grammar of RFC 8259 (sections 2, 4, 6 and 7) as a predicate on
 * such trees, and the printer. Every JSON text is the printed form of some well-formed tree.
 */
module Json {
  import opened Texts

  datatype Value =
    | Literal(text: string)                  // number, true, false or null
    | Str(body: string)                      // the characters between the quotes, still escaped
    | Arr(pad: string, elems: Elems)
    | Obj(pad: string, members: Members)

  datatype Elems =
    | NoElems
    | Elem(lead: string, value: Value, trail: string, rest: Elems)

  datatype Members =
    | NoMembers
    | Member(lead: string, key: string, gap: string, space: string, value: Value, trail: string, rest: Members)

  // ----- Grammar -----

  predicate IsSpace(c: char) { c == ' ' || c == '\t' || c == '\n' || c == '\r' }

  predicate IsBlank(s: string) { forall k :: 0 <= k < |s| ==> IsSpace(s[k]) }

  predicate IsHex(c: char) { IsDigit(c) || 'a' <= c <= 'f' || 'A' <= c <= 'F' }

  /** How many digits `s` starts with. */
  function Digits(s: string): (n: nat)
    ensures n <= |s| && forall k :: 0 <= k < n ==> IsDigit(s[k])
  {
    if s == "" || !IsDigit(s[0]) then 0 else 1 + Digits(s[1..])
  }

  predicate IsSign(c: char) { c == '+' || c == '-' }

  predicate IsExponent(s: string) {
    s == "" ||
    ((s[0] == 'e' || s[0] == 'E') &&
     var w := if |s| > 1 && IsSign(s[1]) then s[2..] else s[1..];
     w != "" && Digits(w) == |w|)
  }

  predicate IsFraction(s: string) {
    if s != "" && s[0] == '.' then
      var m := Digits(s[1..]);
      m > 0 && IsExponent(s[1 + m..])
    else
      IsExponent(s)
  }

  predicate IsUnsigned(s: string) {
    var n := Digits(s);
    n > 0 && (s[0] == '0' ==> n == 1) && IsFraction(s[n..])
  }

  predicate IsNumber(s: string) {
    IsUnsigned(if s != "" && s[0] == '-' then s[1..] else s)
  }

  predicate IsLiteral(s: string) { s == "true" || s == "false" || s == "null" || IsNumber(s) }

  predicate IsSimpleEscape(c: char) {
    || c == '"' || c == '\\' || c == '/' || c == 'b' || c == 'f' || c == 'n' || c == 'r' || c == 't'
  }

  /** The inside of a string: no bare quote, backslash or control character. */
  predicate IsStringBody(b: string) {
    if b == "" then true
    else if b[0] == '\\' then
      |b| >= 2 &&
      if b[1] == 'u' then
        |b| >= 6 && IsHex(b[2]) && IsHex(b[3]) && IsHex(b[4]) && IsHex(b[5]) && IsStringBody(b[6..])
      else
        IsSimpleEscape(b[1]) && IsStringBody(b[2..])
    else
      b[0] != '"' && b[0] >= ' ' && IsStringBody(b[1..])
  }

  predicate WellFormed(v: Value) {
    match v
    case Literal(text) => IsLiteral(text)
    case Str(body) => IsStringBody(body)
    case Arr(pad, elems) => IsBlank(pad) && WellFormedElems(elems)
    case Obj(pad, members) => IsBlank(pad) && WellFormedMembers(members)
  }

  predicate WellFormedElems(es: Elems) {
    match es
    case NoElems => true
    case Elem(lead, value, trail, rest) =>
      IsBlank(lead) && WellFormed(value) && IsBlank(trail) && WellFormedElems(rest)
  }

  predicate WellFormedMembers(ms: Members) {
    match ms
    case NoMembers => true
    case Member(lead, key, gap, space, value, trail, rest) =>
      && IsBlank(lead) && IsStringBody(key) && IsBlank(gap) && IsBlank(space)
      && WellFormed(value) && IsBlank(trail) && WellFormedMembers(rest)
  }

  // ----- Printer -----

  /** The text of a quoted string whose inside is `body`, followed by `rest`. */
  function EmitString(body: string, rest: string): string { "\"" + (body + ("\"" + rest)) }

  /** The text of `v` followed by `rest`. */
  function Emit(v: Value, rest: string): string
    decreases v, 0
  {
    match v
    case Literal(text) => text + rest
    case Str(body) => EmitString(body, rest)
    case Arr(pad, elems) => "[" + (pad + EmitElems(elems, "]" + rest))
    case Obj(pad, members) => "{" + (pad + EmitMembers(members, "}" + rest))
  }

  function EmitElems(es: Elems, rest: string): string
    decreases es, 0
  {
    match es
    case NoElems => rest
    case Elem(lead, value, trail, more) => lead + Emit(value, trail + EmitMoreElems(more, rest))
  }

  function EmitMoreElems(es: Elems, rest: string): string
    decreases es, 1
  {
    if es.NoElems? then rest else "," + EmitElems(es, rest)
  }

  function EmitMembers(ms: Members, rest: string): string
    decreases ms, 0
  {
    match ms
    case NoMembers => rest
    case Member(lead, key, gap, space, value, trail, more) =>
      lead + EmitString(key, gap + (":" + (space + Emit(value, trail + EmitMoreMembers(more, rest)))))
  }

  function EmitMoreMembers(ms: Members, rest: string): string
    decreases ms, 1
  {
    if ms.NoMembers? then rest else "," + EmitMembers(ms, rest)
  }

  function Print(v: Value): string { Emit(v, "") }

  // ----- The printer only appends -----

  lemma {:induction false} EmitAppends(v: Value, rest: string)
    ensures Emit(v, rest) == Print(v) + rest
  {
    match v {
      case Literal(text) =>
      case Str(body) =>
      case Arr(pad, elems) =>
        ElemsAppend(elems, "]", rest);
        assert "]" + "" == "]";
      case Obj(pad, members) =>
        MembersAppend(members, "}", rest);
        assert "}" + "" == "}";
    }
  }

  lemma {:induction false} ElemsAppend(es: Elems, a: string, rest: string)
    ensures EmitElems(es, a + rest) == EmitElems(es, a) + rest
  {
    match es {
      case NoElems =>
      case Elem(lead, value, trail, more) =>
        if !more.NoElems? { ElemsAppend(more, a, rest); }
        var tail := trail + EmitMoreElems(more, a);
        assert trail + EmitMoreElems(more, a + rest) == tail + rest;
        EmitAppends(value, tail + rest);
        EmitAppends(value, tail);
    }
  }

  lemma {:induction false} MembersAppend(ms: Members, a: string, rest: string)
    ensures EmitMembers(ms, a + rest) == EmitMembers(ms, a) + rest
  {
    match ms {
      case NoMembers =>
      case Member(lead, key, gap, space, value, trail, more) =>
        if !more.NoMembers? { MembersAppend(more, a, rest); }
        var tail := trail + EmitMoreMembers(more, a);
        assert trail + EmitMoreMembers(more, a + rest) == tail + rest;
        EmitAppends(value, tail + rest);
        EmitAppends(value, tail);
        var inner := gap + (":" + (space + Emit(value, tail)));
        assert gap + (":" + (space + Emit(value, tail + rest))) == inner + rest;
        assert EmitString(key, inner + rest) == EmitString(key, inner) + rest;
    }
  }

  // ----- What a scanner may rely on -----

  /** A character that neither starts, ends nor separates anything. */
  predicate IsPlain(c: char) {
    && !IsSpace(c) && c != '"' && c != '\\' && c != ',' && c != ':'
    && c != '{' && c != '}' && c != '[' && c != ']'
  }

  predicate AllPlain(s: string) { forall k :: 0 <= k < |s| ==> IsPlain(s[k]) }

  lemma PlainJoin(a: string, b: string, s: string)
    requires AllPlain(a) && AllPlain(b) && s == a + b
    ensures AllPlain(s)
  {
  }

  lemma ExponentIsPlain(s: string)
    requires IsExponent(s)
    ensures AllPlain(s)
  {
    if s != "" {
      var cut := if |s| > 1 && IsSign(s[1]) then 2 else 1;
      assert AllPlain(s[..cut]);
      assert Digits(s[cut..]) == |s[cut..]|;
      PlainJoin(s[..cut], s[cut..], s);
    }
  }

  lemma DigitsArePlain(s: string, from: nat, to: nat)
    requires from <= to <= |s| && forall k :: from <= k < to ==> IsDigit(s[k])
    ensures AllPlain(s[from..to])
  {
  }

  lemma FractionIsPlain(s: string)
    requires IsFraction(s)
    ensures AllPlain(s)
  {
    if s != "" && s[0] == '.' {
      var m := Digits(s[1..]);
      forall k | 1 <= k < 1 + m ensures IsDigit(s[k]) { assert s[1..][k - 1] == s[k]; }
      DigitsArePlain(s, 1, 1 + m);
      ExponentIsPlain(s[1 + m..]);
      DotJoin(s, 1 + m);
    } else {
      ExponentIsPlain(s);
    }
  }

  lemma DotJoin(s: string, n: nat)
    requires 1 <= n <= |s| && s[0] == '.' && AllPlain(s[1..n]) && AllPlain(s[n..])
    ensures AllPlain(s)
  {
    forall k | 0 <= k < |s| ensures IsPlain(s[k]) {
      if 1 <= k < n { assert s[1..n][k - 1] == s[k]; } else if n <= k { assert s[n..][k - n] == s[k]; }
    }
  }

  lemma UnsignedIsPlain(s: string)
    requires IsUnsigned(s)
    ensures s != "" && AllPlain(s)
  {
    var n := Digits(s);
    FractionIsPlain(s[n..]);
    assert AllPlain(s[..n]);
    PlainJoin(s[..n], s[n..], s);
  }

  lemma LiteralIsPlain(s: string)
    requires IsLiteral(s)
    ensures s != "" && AllPlain(s)
  {
    if IsNumber(s) {
      if s != "" && s[0] == '-' {
        UnsignedIsPlain(s[1..]);
        PlainJoin("-", s[1..], s);
      } else {
        UnsignedIsPlain(s);
      }
    }
  }

  // ----- JSON.stringify on strings -----

  function HexDigit(n: int): char
    requires 0 <= n < 16
  {
    if n < 10 then ('0' as int + n) as char else ('a' as int + n - 10) as char
  }

  function EscapeChar(c: char): string {
    if c == '"' then "\\\""
    else if c == '\\' then "\\\\"
    else if c == '\n' then "\\n"
    else if c == '\r' then "\\r"
    else if c == '\t' then "\\t"
    else if c as int == 8 then "\\b"
    else if c as int == 12 then "\\f"
    else if c < ' ' then ['\\', 'u', '0', '0', HexDigit(c as int / 16), HexDigit(c as int % 16)]
    else [c]
  }

  /** The inside of the literal `JSON.stringify` writes for a string. */
  function Escape(s: string): string {
    if s == "" then "" else EscapeChar(s[0]) + Escape(s[1..])
  }

  function Quote(s: string): string { "\"" + Escape(s) + "\"" }

  predicate NeedsNoEscape(s: string) { forall k :: 0 <= k < |s| ==> EscapeChar(s[k]) == [s[k]] }

  /** One character of a string body, or one escape sequence, then the rest of it. */
  lemma BodyGoesOn(b: string, n: nat)
    requires n <= |b| && IsStringBody(b[n..])
    requires
      || (n == 1 && b[0] != '"' && b[0] != '\\' && b[0] >= ' ')
      || (n == 2 && b[0] == '\\' && b[1] != 'u' && IsSimpleEscape(b[1]))
      || (n == 6 && b[0] == '\\' && b[1] == 'u' && IsHex(b[2]) && IsHex(b[3]) && IsHex(b[4]) && IsHex(b[5]))
    ensures IsStringBody(b)
  {
  }

  lemma EscapeCharIsOne(c: char)
    ensures var e := EscapeChar(c);
      || (|e| == 1 && e[0] != '"' && e[0] != '\\' && e[0] >= ' ')
      || (|e| == 2 && e[0] == '\\' && e[1] != 'u' && IsSimpleEscape(e[1]))
      || (|e| == 6 && e[0] == '\\' && e[1] == 'u' && IsHex(e[2]) && IsHex(e[3]) && IsHex(e[4]) && IsHex(e[5]))
  {
  }

  lemma {:induction false} EscapeIsStringBody(s: string)
    ensures IsStringBody(Escape(s))
  {
    if s != "" {
      EscapeIsStringBody(s[1..]);
      var e, b := EscapeChar(s[0]), Escape(s);
      EscapeCharIsOne(s[0]);
      assert b[|e|..] == Escape(s[1..]);
      assert forall k :: 0 <= k < |e| ==> b[k] == e[k];
      BodyGoesOn(b, |e|);
    }
  }

  lemma {:induction false} UnescapedIsItself(s: string)
    requires NeedsNoEscape(s)
    ensures Escape(s) == s
  {
    if s != "" {
      UnescapedIsItself(s[1..]);
      assert EscapeChar(s[0]) == [s[0]];
    }
  }

  // ----- Numbers -----

  predicate AreDigits(s: string) { s != "" && forall k :: 0 <= k < |s| ==> IsDigit(s[k]) }

  lemma {:induction false} DigitsAre(s: string, n: nat)
    requires n <= |s| && (forall k :: 0 <= k < n ==> IsDigit(s[k])) && (n < |s| ==> !IsDigit(s[n]))
    ensures Digits(s) == n
  {
    if n > 0 { DigitsAre(s[1..], n - 1); }
  }

  /** Perhaps a point and digits. */
  predicate IsFractionText(s: string) { s == "" || (|s| >= 2 && s[0] == '.' && AreDigits(s[1..])) }

  /** Perhaps an `e` of either case, a sign if any, and digits. */
  predicate IsExponentText(s: string) {
    s == "" || (|s| >= 2 && (s[0] == 'e' || s[0] == 'E')
                && (AreDigits(s[1..]) || ((s[1] == '+' || s[1] == '-') && AreDigits(s[2..]))))
  }

  lemma ExponentIs(s: string)
    requires IsExponentText(s)
    ensures IsExponent(s)
  {
    if s != "" {
      var w := if IsSign(s[1]) then s[2..] else s[1..];
      DigitsAre(w, |w|);
    }
  }

  lemma FractionIs(s: string, n: nat)
    requires n <= |s| && IsFractionText(s[..n]) && IsExponentText(s[n..])
    ensures IsFraction(s)
  {
    ExponentIs(s[n..]);
    if n == 0 {
      assert s[0..] == s;
    } else {
      var digits, rest := s[..n][1..], s[1..];
      assert forall k :: 0 <= k < n - 1 ==> rest[k] == digits[k];
      assert s[0] == s[..n][0] && (n < |s| ==> rest[n - 1] == s[n..][0]);
      DigitsAre(rest, n - 1);
      assert s[1 + (n - 1)..] == s[n..];
    }
  }

  lemma UnsignedIs(s: string, m: nat, n: nat)
    requires m <= n <= |s| && AreDigits(s[..m]) && (s[0] == '0' ==> m == 1)
    requires IsFractionText(s[m..n]) && IsExponentText(s[n..])
    ensures IsUnsigned(s)
  {
    assert s[m..][..n - m] == s[m..n] && s[m..][n - m..] == s[n..];
    FractionIs(s[m..], n - m);
    assert m < n ==> s[m] == s[m..n][0];
    assert m == n < |s| ==> s[m] == s[n..][0];
    assert forall k :: 0 <= k < m ==> s[..m][k] == s[k];
    DigitsAre(s, m);
  }

  /**
   * A sign if any, digits without an idle nought up to m, a fraction up to n, an exponent: every such
   * text is a number.
   */
  lemma NumbersAre(sign: string, s: string, m: nat, n: nat)
    requires sign == "" || sign == "-"
    requires m <= n <= |s| && AreDigits(s[..m]) && (s[0] == '0' ==> m == 1)
    requires IsFractionText(s[m..n]) && IsExponentText(s[n..])
    ensures IsNumber(sign + s)
  {
    UnsignedIs(s, m, n);
    assert s[..m][0] == s[0];
    if sign == "" { assert sign + s == s; } else { assert (sign + s)[1..] == s; }
  }
}
