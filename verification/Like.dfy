/**
 * The SQL LIKE operator with escape character `\` (as SQLite matches it: ASCII case is ignored, a
 * pattern ending in the escape matches nothing) and the two escapings the http server puts user
 * text through: packages/http/src/chat-audits.ts and the older one of packages/http/src/db.ts.
 */
module Like {
  function Fold(c: char): char {
    if 'A' <= c <= 'Z' then (c as int + 32) as char else c
  }

  /** Two characters are alike when they are the same, or the two cases of one of the 26 letters. */
  lemma FoldIff(c: char, d: char)
    ensures Fold(c) == Fold(d) <==>
      c == d || ('A' <= c <= 'Z' && d as int == c as int + 32) || ('A' <= d <= 'Z' && c as int == d as int + 32)
  {
    assert Fold(c) as int == if 'A' <= c <= 'Z' then c as int + 32 else c as int;
    assert Fold(d) as int == if 'A' <= d <= 'Z' then d as int + 32 else d as int;
  }

  predicate FoldEqual(a: string, b: string) {
    |a| == |b| && forall k :: 0 <= k < |a| ==> Fold(a[k]) == Fold(b[k])
  }

  predicate FoldAt(t: string, v: string, k: int) { 0 <= k <= |t| - |v| && FoldEqual(v, t[k..k + |v|]) }

  /** `t` contains `v`, up to ASCII case. */
  predicate ContainsFold(t: string, v: string) { exists k :: 0 <= k <= |t| && FoldAt(t, v, k) }

  /** `t LIKE p ESCAPE '\'`. */
  predicate Like(p: string, t: string)
    decreases |p|
  {
    if p == "" then t == ""
    else if p[0] == '%' then exists k :: 0 <= k <= |t| && Like(p[1..], t[k..])
    else if p[0] == '_' then t != "" && Like(p[1..], t[1..])
    else if p[0] == '\\' then |p| >= 2 && t != "" && Fold(p[1]) == Fold(t[0]) && Like(p[2..], t[1..])
    else t != "" && Fold(p[0]) == Fold(t[0]) && Like(p[1..], t[1..])
  }

  /** `value.replace(/[\\%_]/g, ch => "\\" + ch)`. */
  function Escape(v: string): string {
    if v == "" then ""
    else (if v[0] == '\\' || v[0] == '%' || v[0] == '_' then ['\\', v[0]] else [v[0]]) + Escape(v[1..])
  }

  function LikeContains(v: string): string { "%" + (Escape(v) + "%") }

  /** The escaping of `searchMessages`, which leaves backslashes alone. */
  function OldEscape(v: string): string {
    if v == "" then "" else OldChar(v[0]) + OldEscape(v[1..])
  }

  function OldChar(c: char): string { if c == '%' || c == '_' then ['\\', c] else [c] }

  function SearchPattern(v: string): string { "%" + (OldEscape(v) + "%") }

  lemma AnythingMatchesPercent(t: string)
    ensures Like("%", t)
  {
    assert t[|t|..] == "" && Like("%"[1..], t[|t|..]);
  }

  lemma {:induction false} EscapedIsLiteral(v: string, t: string)
    ensures Like(Escape(v) + "%", t) <==> |v| <= |t| && FoldEqual(v, t[..|v|])
    decreases |v|
  {
    var p := Escape(v) + "%";
    if v == "" {
      assert p == "%";
      AnythingMatchesPercent(t);
    } else {
      var rest := Escape(v[1..]) + "%";
      if v[0] == '\\' || v[0] == '%' || v[0] == '_' {
        assert p[0] == '\\' && p[1] == v[0] && p[2..] == rest;
      } else {
        assert p[0] == v[0] && p[1..] == rest;
      }
      if t != "" {
        EscapedIsLiteral(v[1..], t[1..]);
        if |v| <= |t| {
          assert t[1..][..|v| - 1] == t[..|v|][1..];
          FoldEqualHead(v, t[..|v|]);
        }
      }
    }
  }

  lemma FoldEqualHead(a: string, b: string)
    requires |a| == |b| > 0
    ensures FoldEqual(a, b) <==> Fold(a[0]) == Fold(b[0]) && FoldEqual(a[1..], b[1..])
  {
    if FoldEqual(a[1..], b[1..]) && Fold(a[0]) == Fold(b[0]) {
      forall k | 0 <= k < |a| ensures Fold(a[k]) == Fold(b[k]) {
        if k > 0 { assert a[k] == a[1..][k - 1] && b[k] == b[1..][k - 1]; }
      }
    }
  }

  /**
   * `search` is a literal substring: for every value, wildcards and backslashes included, the
   * pattern matches exactly the texts that contain it.
   */
  lemma LikeContainsIsContains(v: string, t: string)
    ensures Like(LikeContains(v), t) <==> ContainsFold(t, v)
  {
    var p := LikeContains(v);
    var body := Escape(v) + "%";
    assert p[0] == '%' && p[1..] == body;
    forall k | 0 <= k <= |t| ensures Like(body, t[k..]) <==> FoldAt(t, v, k) {
      EscapedIsLiteral(v, t[k..]);
      if k <= |t| - |v| { assert t[k..][..|v|] == t[k..k + |v|]; }
    }
    if ContainsFold(t, v) {
      var k :| 0 <= k <= |t| && FoldAt(t, v, k);
      assert Like(p[1..], t[k..]);
    }
  }

  // ----- The older escaping -----

  lemma {:induction false} SameWithoutBackslash(v: string)
    requires '\\' !in v
    ensures OldEscape(v) == Escape(v)
  {
    if v != "" {
      assert v[0] in v && forall k :: 0 <= k < |v| - 1 ==> v[1..][k] in v;
      SameWithoutBackslash(v[1..]);
    }
  }

  /** A text the older pattern matches although it need not hold the query. */
  function Slip(v: string): string {
    if v == "" then ""
    else if v[0] != '\\' then [v[0]] + Slip(v[1..])
    else if |v| == 1 then "%"
    else if v[1] == '\\' || v[1] == '%' then "\\" + Slip(v[2..])
    else if v[1] == '_' then "\\a" + Slip(v[2..])
    else [v[1]] + Slip(v[2..])
  }

  lemma EscapedCharMatches(c: char, p: string, t: string)
    requires Like(p, t)
    ensures Like(['\\', c] + p, [c] + t)
  {
    assert (['\\', c] + p)[2..] == p && ([c] + t)[1..] == t;
  }

  lemma PlainCharMatches(c: char, p: string, t: string)
    requires Like(p, t) && c != '%' && c != '_' && c != '\\'
    ensures Like([c] + p, [c] + t)
  {
    assert ([c] + p)[1..] == p && ([c] + t)[1..] == t;
  }

  lemma PercentMatchesNothing(p: string, t: string)
    requires Like(p, t)
    ensures Like("%" + p, t)
  {
    assert ("%" + p)[1..] == p && t[0..] == t;
  }

  lemma UnderscoreMatches(c: char, p: string, t: string)
    requires Like(p, t)
    ensures Like("_" + p, [c] + t)
  {
    assert ("_" + p)[1..] == p && ([c] + t)[1..] == t;
  }

  lemma OldEscapeHead(v: string)
    requires v != ""
    ensures OldEscape(v) == OldChar(v[0]) + OldEscape(v[1..])
  {
  }

  /** What the older escaping makes of a backslash and one more character, and a text that it matches. */
  function TwoOf(c: char): string { "\\" + OldChar(c) }

  function SlipOf(c: char): string { if c == '%' then "\\" else if c == '_' then "\\a" else [c] }

  lemma BackslashPairMatches(c: char, p: string, t: string)
    requires Like(p, t)
    ensures Like(TwoOf(c) + p, SlipOf(c) + t)
  {
    if c == '%' {
      EscapedPercentMatches(p, t);
    } else if c == '_' {
      EscapedUnderscoreMatches(p, t);
    } else {
      EscapedCharMatches(c, p, t);
      assert TwoOf(c) + p == ['\\', c] + p;
    }
  }

  lemma EscapedPercentMatches(p: string, t: string)
    requires Like(p, t)
    ensures Like(TwoOf('%') + p, SlipOf('%') + t)
  {
    PercentMatchesNothing(p, t);
    EscapedCharMatches('\\', "%" + p, t);
    assert TwoOf('%') + p == ['\\', '\\'] + ("%" + p);
  }

  lemma EscapedUnderscoreMatches(p: string, t: string)
    requires Like(p, t)
    ensures Like(TwoOf('_') + p, SlipOf('_') + t)
  {
    UnderscoreMatches('a', p, t);
    EscapedCharMatches('\\', "_" + p, ['a'] + t);
    assert TwoOf('_') + p == ['\\', '\\'] + ("_" + p);
    assert SlipOf('_') + t == ['\\'] + (['a'] + t);
  }

  lemma TwoHeads(v: string)
    requires |v| > 1 && v[0] == '\\'
    ensures OldEscape(v) == TwoOf(v[1]) + OldEscape(v[2..])
  {
    var one := v[1..];
    OldEscapeHead(v);
    OldEscapeHead(one);
    assert one[0] == v[1] && one[1..] == v[2..];
    Reassociate("\\", OldChar(v[1]), OldEscape(v[2..]));
  }

  lemma Reassociate(a: string, b: string, c: string)
    ensures a + (b + c) == (a + b) + c
  {
  }

  lemma TwoSlip(v: string)
    requires |v| > 1 && v[0] == '\\'
    ensures Slip(v) == SlipOf(v[1]) + Slip(v[2..])
  {
  }

  lemma SlipAfterBackslash(v: string, rest: string, t: string)
    requires |v| > 1 && v[0] == '\\' && rest == OldEscape(v[2..]) + "%" && t == Slip(v[2..]) && Like(rest, t)
    ensures Like(OldEscape(v) + "%", Slip(v))
  {
    TwoHeads(v);
    TwoSlip(v);
    BackslashPairMatches(v[1], rest, t);
    assert OldEscape(v) + "%" == TwoOf(v[1]) + rest;
  }

  lemma OneCharMatches(c: char, escaped: string, t: string)
    requires c != '\\' && Like(escaped + "%", t)
    ensures Like(OldChar(c) + escaped + "%", [c] + t)
  {
    assert OldChar(c) + escaped + "%" == OldChar(c) + (escaped + "%");
    if c == '%' || c == '_' {
      EscapedCharMatches(c, escaped + "%", t);
    } else {
      PlainCharMatches(c, escaped + "%", t);
    }
  }

  lemma {:induction false} SlipMatches(v: string)
    ensures Like(OldEscape(v) + "%", Slip(v))
  {
    if v == "" {
      assert OldEscape(v) + "%" == "%";
      AnythingMatchesPercent("");
    } else if v[0] != '\\' {
      SlipMatches(v[1..]);
      OldEscapeHead(v);
      OneCharMatches(v[0], OldEscape(v[1..]), Slip(v[1..]));
    } else if |v| == 1 {
      OldEscapeHead(v);
      assert v[1..] == "" && OldEscape(v) + "%" == ['\\', '%'] + "";
      EscapedCharMatches('%', "", "");
    } else {
      SlipMatches(v[2..]);
      SlipAfterBackslash(v, OldEscape(v[2..]) + "%", Slip(v[2..]));
    }
  }

  lemma {:induction false} SlipDiffers(v: string)
    ensures |Slip(v)| <= |v|
    ensures '\\' in v && |Slip(v)| == |v| ==> !FoldEqual(v, Slip(v))
  {
    if v != "" {
      if v[0] != '\\' {
        SlipDiffers(v[1..]);
        assert '\\' in v ==> '\\' in v[1..];
        if |Slip(v)| == |v| {
          FoldEqualHead(v, Slip(v));
          assert Slip(v)[1..] == Slip(v[1..]);
        }
      } else if |v| > 1 {
        SlipDiffers(v[2..]);
        if v[1] == '_' { assert Slip(v)[1] == 'a'; }
      }
    }
  }

  /** The two searches agree on every text exactly when the query holds no backslash. */
  lemma OlderSearchAgreesIffNoBackslash(v: string)
    ensures (forall t :: Like(SearchPattern(v), t) <==> Like(LikeContains(v), t)) <==> '\\' !in v
  {
    if '\\' in v {
      var t := Slip(v);
      SlipMatches(v);
      SlipDiffers(v);
      var p := SearchPattern(v);
      assert p[0] == '%' && p[1..] == OldEscape(v) + "%" && t[0..] == t;
      assert Like(p, t);
      LikeContainsIsContains(v, t);
      assert |t| == |v| ==> t[0..0 + |v|] == t;
    } else {
      SameWithoutBackslash(v);
    }
  }
}
