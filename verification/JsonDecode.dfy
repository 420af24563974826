/** The inside of a JSON string literal, its escapes read (RFC 8259, section 7), and the round trip with writing it. */
module JsonDecode {
  import opened Texts
  import opened Json

  function DigitOf(c: char): int
    requires IsHex(c)
  {
    if c <= '9' then c as int - '0' as int
    else if c <= 'F' then c as int - 'A' as int + 10
    else c as int - 'a' as int + 10
  }

  function HexValue(s: string): int
    requires |s| == 4 && forall k :: 0 <= k < 4 ==> IsHex(s[k])
  {
    DigitOf(s[0]) * 4096 + DigitOf(s[1]) * 256 + DigitOf(s[2]) * 16 + DigitOf(s[3])
  }

  /** What a backslash and this character stand for. */
  function Escaped(c: char): int {
    if c == 'b' then 8 else if c == 't' then 9 else if c == 'n' then 10 else if c == 'f' then 12
    else if c == 'r' then 13 else c as int
  }

  /** The inside of a string, escapes read, as numbers of characters. */
  function Decoded(body: string): seq<int>
    requires IsStringBody(body)
  {
    if body == "" then []
    else if body[0] != '\\' then [body[0] as int] + Decoded(body[1..])
    else if body[1] == 'u' then [HexValue(body[2..6])] + Decoded(body[6..])
    else [Escaped(body[1])] + Decoded(body[2..])
  }

  lemma {:induction false} UnescapedIsAsWritten(body: string)
    requires IsStringBody(body) && forall k :: 0 <= k < |body| ==> body[k] != '\\'
    ensures |Decoded(body)| == |body| && forall k :: 0 <= k < |body| ==> Decoded(body)[k] == body[k] as int
  {
    if body != "" {
      UnescapedIsAsWritten(body[1..]);
      forall k | 0 <= k < |body| ensures Decoded(body)[k] == body[k] as int {
        if k > 0 { assert body[k] == body[1..][k - 1]; }
      }
    }
  }

  /** What `JSON.parse` makes of an object: of several members with one name the last is kept. */
  function Parsed(ms: Members): map<seq<int>, Value>
    requires WellFormedMembers(ms)
  {
    match ms
    case NoMembers => map[]
    case Member(_, key, _, _, value, _, rest) => map[Decoded(key) := value] + Parsed(rest)
  }

  function Codes(s: string): seq<int> { seq(|s|, k requires 0 <= k < |s| => s[k] as int) }

  /** The sequence written for one character stands for that character. */
  lemma EscapeCharDecodes(c: char)
    ensures IsStringBody(EscapeChar(c)) && Decoded(EscapeChar(c)) == [c as int]
  {
    var e := EscapeChar(c);
    EscapeCharIsOne(c);
    assert e[|e|..] == "";
    BodyGoesOn(e, |e|);
    if |e| == 6 {
      assert e[2..6] == ['0', '0', HexDigit(c as int / 16), HexDigit(c as int % 16)];
    }
  }

  predicate IsOneCharacter(e: string) {
    || (|e| == 1 && e[0] != '\\')
    || (|e| == 2 && e[0] == '\\' && e[1] != 'u')
    || (|e| == 6 && e[0] == '\\' && e[1] == 'u')
  }

  /** One character, or one escape sequence, is read before what follows it. */
  lemma DecodedGoesOn(s: string, e: string)
    requires IsStringBody(s) && IsStringBody(e) && e <= s && IsOneCharacter(e)
    ensures IsStringBody(s[|e|..]) && Decoded(s) == Decoded(e) + Decoded(s[|e|..])
  {
    assert e[|e|..] == "" && forall k :: 0 <= k < |e| ==> e[k] == s[k];
    if |e| == 6 { assert s[2..6] == e[2..6]; }
  }

  /** Reading what `JSON.stringify` writes for a string gives its characters back, controls and quotes included. */
  lemma {:induction false} EscapeRoundTrip(s: string)
    ensures IsStringBody(Escape(s)) && Decoded(Escape(s)) == Codes(s)
  {
    EscapeIsStringBody(s);
    if s != "" {
      EscapeRoundTrip(s[1..]);
      EscapeCharDecodes(s[0]);
      EscapeCharIsOne(s[0]);
      DecodedGoesOn(Escape(s), EscapeChar(s[0]));
      assert Escape(s)[|EscapeChar(s[0])|..] == Escape(s[1..]);
      assert Codes(s) == [s[0] as int] + Codes(s[1..]);
    }
  }
}
