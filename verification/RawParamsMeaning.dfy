/**
 * What the scan of RawParams.dfy finds in a JSON text, whatever its layout and however often
 * `"params"` is nested or quoted inside it.
 */
module RawParamsMeaning {
  import opened Wrappers
  import opened Json
  import opened RawParams

  /** The printed value of the first member spelled `"params"`. */
  function FirstParams(ms: Members): Option<string> {
    match ms
    case NoMembers => None
    case Member(_, key, _, _, value, _, rest) => if key == "params" then Some(Print(value)) else FirstParams(rest)
  }

  /** The answer JSON gives: only an object has members, and only its own count. */
  function ParamsOf(v: Value): Option<string> {
    if v.Obj? then FirstParams(v.members) else None
  }

  // ----- Strings, literals, blanks -----

  lemma {:induction false} StringIsSkipped(body: string, rest: string)
    requires IsStringBody(body)
    ensures AfterString(body + ("\"" + rest)) == rest
  {
    var s := body + ("\"" + rest);
    if body == "" {
      assert s == "\"" + rest;
      assert s[1..] == rest;
    } else {
      var n := if body[0] != '\\' then 1 else if body[1] != 'u' then 2 else 6;
      StringIsSkipped(body[n..], rest);
      assert s[n..] == body[n..] + ("\"" + rest);
      assert forall k :: 0 <= k < n ==> s[k] == body[k];
      HeadIsSkipped(s, n);
    }
  }

  /** One character of a string body, or one escape sequence. */
  lemma HeadIsSkipped(s: string, n: nat)
    requires n <= |s|
    requires
      || (n == 1 && s[0] != '\\' && s[0] != '"')
      || (n == 2 && s[0] == '\\')
      || (n == 6 && s[0] == '\\' && IsHex(s[2]) && IsHex(s[3]) && IsHex(s[4]) && IsHex(s[5]))
    ensures AfterString(s) == AfterString(s[n..])
  {
    if n == 6 {
      OrdinaryIsSkipped(s, 2);
      OrdinaryIsSkipped(s, 3);
      OrdinaryIsSkipped(s, 4);
      OrdinaryIsSkipped(s, 5);
    }
  }

  lemma OrdinaryIsSkipped(s: string, k: nat)
    requires k < |s| && s[k] != '\\' && s[k] != '"'
    ensures AfterString(s[k..]) == AfterString(s[k + 1..])
  {
    assert s[k..][1..] == s[k + 1..];
  }

  lemma QuotedIsSkipped(body: string, rest: string)
    requires IsStringBody(body)
    ensures var s := EmitString(body, rest);
      && s != "" && s[0] == '"' && AfterString(s[1..]) == rest
      && Before(s, rest) == "\"" + body + "\""
  {
    StringIsSkipped(body, rest);
    var s := EmitString(body, rest);
    assert s[1..] == body + ("\"" + rest);
    assert s == ("\"" + body + "\"") + rest;
  }

  predicate IsQuiet(c: char) { c != '"' && !Opens(c) && !Closes(c) }

  lemma {:induction false} QuietIsSkipped(q: string, rest: string, depth: int)
    requires forall k :: 0 <= k < |q| ==> IsQuiet(q[k])
    ensures Scan(q + rest, depth) == Scan(rest, depth)
    ensures AfterNest(q + rest, depth) == AfterNest(rest, depth)
  {
    if q == "" {
      assert q + rest == rest;
    } else {
      assert (q + rest)[1..] == q[1..] + rest;
      QuietIsSkipped(q[1..], rest, depth);
    }
  }

  lemma {:induction false} BlankIsDropped(blank: string, rest: string)
    requires IsBlank(blank)
    requires rest != "" ==> !IsJsSpace(rest[0])
    ensures DropSpace(blank + rest) == rest
  {
    if blank == "" {
      assert blank + rest == rest;
    } else {
      assert (blank + rest)[1..] == blank[1..] + rest;
      BlankIsDropped(blank[1..], rest);
    }
  }

  lemma {:induction false} LiteralIsSkipped(text: string, rest: string)
    requires AllPlain(text)
    requires rest != "" ==> EndsLiteral(rest[0])
    ensures AfterLiteral(text + rest) == rest
  {
    if text == "" {
      assert text + rest == rest;
    } else {
      assert (text + rest)[1..] == text[1..] + rest;
      LiteralIsSkipped(text[1..], rest);
    }
  }

  lemma CharIsSkipped(c: char, rest: string, depth: int)
    requires c != '"'
    ensures Scan([c] + rest, depth) ==
            Scan(rest, if Opens(c) then depth + 1 else if Closes(c) then depth - 1 else depth)
    ensures AfterNest([c] + rest, depth) ==
      if Opens(c) then AfterNest(rest, depth + 1)
      else if !Closes(c) then AfterNest(rest, depth)
      else if depth == 1 then rest else AfterNest(rest, depth - 1)
  {
    assert ([c] + rest)[1..] == rest;
  }

  // ----- Values inside brackets -----

  /** Whether a string read just before `rest` would be taken for a key. */
  predicate ColonNext(rest: string) {
    var s := DropSpace(rest);
    s != "" && s[0] == ':'
  }

  lemma StringAtDepth(body: string, rest: string, depth: int)
    requires IsStringBody(body)
    requires depth != 1 || !ColonNext(rest)
    ensures Scan(EmitString(body, rest), depth) == Scan(rest, depth)
    ensures AfterNest(EmitString(body, rest), depth) == AfterNest(rest, depth)
  {
    QuotedIsSkipped(body, rest);
  }

  /**
   * A value of any nesting leaves both scanners where they were: nothing inside it is taken for
   * the top-level key, and every bracket it opens it closes.
   */
  lemma {:induction false} ValueIsSkipped(v: Value, rest: string, depth: int)
    requires WellFormed(v) && depth >= 1
    requires depth == 1 ==> !ColonNext(rest)
    ensures Scan(Emit(v, rest), depth) == Scan(rest, depth)
    ensures AfterNest(Emit(v, rest), depth) == AfterNest(rest, depth)
    decreases v, 0
  {
    match v {
      case Literal(text) =>
        LiteralIsPlain(text);
        QuietIsSkipped(text, rest, depth);
      case Str(body) =>
        StringAtDepth(body, rest, depth);
      case Arr(pad, elems) =>
        ArrayIsSkipped(pad, elems, rest, depth);
      case Obj(pad, members) =>
        ObjectIsSkipped(pad, members, rest, depth);
    }
  }

  lemma {:induction false} ArrayIsSkipped(pad: string, elems: Elems, rest: string, depth: int)
    requires IsBlank(pad) && WellFormedElems(elems) && depth >= 1
    ensures var s := "[" + (pad + EmitElems(elems, "]" + rest));
      Scan(s, depth) == Scan(rest, depth) && AfterNest(s, depth) == AfterNest(rest, depth)
    decreases elems, 1
  {
    var inner := EmitElems(elems, "]" + rest);
    CharIsSkipped('[', pad + inner, depth);
    QuietIsSkipped(pad, inner, depth + 1);
    ElemsAreSkipped(elems, "]" + rest, depth + 1);
    CharIsSkipped(']', rest, depth + 1);
  }

  lemma {:induction false} ObjectIsSkipped(pad: string, members: Members, rest: string, depth: int)
    requires IsBlank(pad) && WellFormedMembers(members) && depth >= 1
    ensures var s := "{" + (pad + EmitMembers(members, "}" + rest));
      Scan(s, depth) == Scan(rest, depth) && AfterNest(s, depth) == AfterNest(rest, depth)
    decreases members, 1
  {
    var inner := EmitMembers(members, "}" + rest);
    CharIsSkipped('{', pad + inner, depth);
    QuietIsSkipped(pad, inner, depth + 1);
    MembersAreSkipped(members, "}" + rest, depth + 1);
    CharIsSkipped('}', rest, depth + 1);
  }

  lemma {:induction false} ElemsAreSkipped(es: Elems, rest: string, depth: int)
    requires WellFormedElems(es) && depth >= 2
    ensures Scan(EmitElems(es, rest), depth) == Scan(rest, depth)
    ensures AfterNest(EmitElems(es, rest), depth) == AfterNest(rest, depth)
    decreases es, 0
  {
    match es {
      case NoElems =>
      case Elem(lead, value, trail, more) =>
        var tail := EmitMoreElems(more, rest);
        QuietIsSkipped(lead, Emit(value, trail + tail), depth);
        ValueIsSkipped(value, trail + tail, depth);
        QuietIsSkipped(trail, tail, depth);
        if !more.NoElems? {
          CharIsSkipped(',', EmitElems(more, rest), depth);
          ElemsAreSkipped(more, rest, depth);
        }
    }
  }

  lemma {:induction false} MembersAreSkipped(ms: Members, rest: string, depth: int)
    requires WellFormedMembers(ms) && depth >= 2
    ensures Scan(EmitMembers(ms, rest), depth) == Scan(rest, depth)
    ensures AfterNest(EmitMembers(ms, rest), depth) == AfterNest(rest, depth)
    decreases ms, 0
  {
    match ms {
      case NoMembers =>
      case Member(lead, key, gap, space, value, trail, more) =>
        var tail := EmitMoreMembers(more, rest);
        MemberIsSkipped(lead, key, gap, space, value, trail, tail, depth);
        if !more.NoMembers? {
          CharIsSkipped(',', EmitMembers(more, rest), depth);
          MembersAreSkipped(more, rest, depth);
        }
    }
  }

  lemma ColonIsSkipped(gap: string, space: string, valueOn: string, depth: int)
    requires IsBlank(gap) && IsBlank(space)
    ensures Scan(gap + (":" + (space + valueOn)), depth) == Scan(valueOn, depth)
    ensures AfterNest(gap + (":" + (space + valueOn)), depth) == AfterNest(valueOn, depth)
  {
    QuietIsSkipped(gap, ":" + (space + valueOn), depth);
    CharIsSkipped(':', space + valueOn, depth);
    QuietIsSkipped(space, valueOn, depth);
  }

  /** A member below the top level, read up to what separates it from the next. */
  lemma {:induction false} MemberIsSkipped(
    lead: string, key: string, gap: string, space: string, value: Value, trail: string, tail: string, depth: int)
    requires IsBlank(lead) && IsStringBody(key) && IsBlank(gap) && IsBlank(space) && WellFormed(value) && IsBlank(trail)
    requires depth >= 2
    ensures var s := lead + EmitString(key, gap + (":" + (space + Emit(value, trail + tail))));
      Scan(s, depth) == Scan(tail, depth) && AfterNest(s, depth) == AfterNest(tail, depth)
    decreases value, 1
  {
    var valueOn := Emit(value, trail + tail);
    QuietIsSkipped(lead, EmitString(key, gap + (":" + (space + valueOn))), depth);
    StringAtDepth(key, gap + (":" + (space + valueOn)), depth);
    ColonIsSkipped(gap, space, valueOn, depth);
    ValueIsSkipped(value, trail + tail, depth);
    QuietIsSkipped(trail, tail, depth);
  }

  /** The end of a value is found exactly, for every value followed by something that may follow one. */
  lemma ValueEndIsFound(v: Value, rest: string)
    requires WellFormed(v)
    requires rest != "" ==> EndsLiteral(rest[0])
    ensures AfterValue(Emit(v, rest)) == rest
  {
    match v {
      case Literal(text) =>
        LiteralIsPlain(text);
        LiteralIsSkipped(text, rest);
        assert (text + rest)[0] == text[0];
      case Str(body) =>
        QuotedIsSkipped(body, rest);
      case Arr(pad, elems) =>
        var inner := EmitElems(elems, "]" + rest);
        CharIsSkipped('[', pad + inner, 0);
        QuietIsSkipped(pad, inner, 1);
        ArrayEndIsFound(elems, rest);
      case Obj(pad, members) =>
        var inner := EmitMembers(members, "}" + rest);
        CharIsSkipped('{', pad + inner, 0);
        QuietIsSkipped(pad, inner, 1);
        ObjectEndIsFound(members, rest);
    }
  }

  lemma ValueHasText(v: Value, rest: string)
    requires WellFormed(v)
    ensures Emit(v, rest) == Print(v) + rest
    ensures Before(Emit(v, rest), rest) == Print(v)
    ensures Print(v) != "" && !IsJsSpace(Print(v)[0])
  {
    EmitAppends(v, rest);
    match v {
      case Literal(text) =>
        FirstOfLiteral(text);
        assert text + "" == text;
      case Str(body) =>
      case Arr(pad, elems) =>
      case Obj(pad, members) =>
    }
  }

  lemma FirstOfLiteral(text: string)
    requires IsLiteral(text)
    ensures text != "" && !IsJsSpace(text[0])
  {
  }

  lemma {:induction false} ArrayEndIsFound(es: Elems, rest: string)
    requires WellFormedElems(es)
    ensures AfterNest(EmitElems(es, "]" + rest), 1) == rest
  {
    match es {
      case NoElems => CharIsSkipped(']', rest, 1);
      case Elem(lead, value, trail, more) =>
        var tail := EmitMoreElems(more, "]" + rest);
        QuietIsSkipped(lead, Emit(value, trail + tail), 1);
        assert tail != "" && (tail[0] == ',' || tail[0] == ']');
        BlankIsDropped(trail, tail);
        ValueIsSkipped(value, trail + tail, 1);
        QuietIsSkipped(trail, tail, 1);
        if more.NoElems? {
          CharIsSkipped(']', rest, 1);
        } else {
          CharIsSkipped(',', EmitElems(more, "]" + rest), 1);
          ArrayEndIsFound(more, rest);
        }
    }
  }

  lemma {:induction false} ObjectEndIsFound(ms: Members, rest: string)
    requires WellFormedMembers(ms)
    ensures AfterNest(EmitMembers(ms, "}" + rest), 1) == rest
  {
    match ms {
      case NoMembers => CharIsSkipped('}', rest, 1);
      case Member(lead, key, gap, space, value, trail, more) =>
        var tail := EmitMoreMembers(more, "}" + rest);
        var afterKey := gap + (":" + (space + Emit(value, trail + tail)));
        QuietIsSkipped(lead, EmitString(key, afterKey), 1);
        QuotedIsSkipped(key, afterKey);
        MemberIsPassedOver(gap, space, value, trail, tail);
        if more.NoMembers? {
          CharIsSkipped('}', rest, 1);
        } else {
          CharIsSkipped(',', EmitMembers(more, "}" + rest), 1);
          ObjectEndIsFound(more, rest);
        }
    }
  }

  // ----- The top level -----

  /** Just after a key: the colon is seen and the value's text comes back exactly. */
  lemma ValueAfterKeyIsPrinted(gap: string, space: string, value: Value, rest: string)
    requires IsBlank(gap) && IsBlank(space) && WellFormed(value)
    requires rest != "" && EndsLiteral(rest[0])
    ensures ValueAfterKey(gap + (":" + (space + Emit(value, rest)))) == Some(Some(Print(value)))
  {
    var valueOn := Emit(value, rest);
    ValueEndIsFound(value, rest);
    ValueHasText(value, rest);
    BlankIsDropped(gap, ":" + (space + valueOn));
    assert (":" + (space + valueOn))[1..] == space + valueOn;
    BlankIsDropped(space, valueOn);
  }

  /** The members of the outermost object, read at depth 1. */
  lemma {:induction false} MembersAreSearched(ms: Members, rest: string)
    requires WellFormedMembers(ms)
    ensures Scan(EmitMembers(ms, "}" + rest), 1) ==
      if FirstParams(ms).Some? then FirstParams(ms) else Scan(rest, 0)
  {
    match ms {
      case NoMembers => CharIsSkipped('}', rest, 1);
      case Member(lead, key, gap, space, value, trail, more) =>
        var tail := EmitMoreMembers(more, "}" + rest);
        var afterKey := gap + (":" + (space + Emit(value, trail + tail)));
        QuietIsSkipped(lead, EmitString(key, afterKey), 1);
        QuotedIsSkipped(key, afterKey);
        QuotedDiffers(key);
        if key == "params" {
          assert (trail + tail)[0] == if trail == "" then tail[0] else trail[0];
          ValueAfterKeyIsPrinted(gap, space, value, trail + tail);
        } else {
          MemberIsPassedOver(gap, space, value, trail, tail);
          if more.NoMembers? {
            CharIsSkipped('}', rest, 1);
          } else {
            CharIsSkipped(',', EmitMembers(more, "}" + rest), 1);
            MembersAreSearched(more, rest);
          }
        }
    }
  }

  /** What follows any other key at depth 1. */
  lemma MemberIsPassedOver(gap: string, space: string, value: Value, trail: string, tail: string)
    requires IsBlank(gap) && IsBlank(space) && WellFormed(value) && IsBlank(trail)
    requires tail != "" && (tail[0] == ',' || tail[0] == '}')
    ensures Scan(gap + (":" + (space + Emit(value, trail + tail))), 1) == Scan(tail, 1)
    ensures AfterNest(gap + (":" + (space + Emit(value, trail + tail))), 1) == AfterNest(tail, 1)
  {
    ColonIsSkipped(gap, space, Emit(value, trail + tail), 1);
    BlankIsDropped(trail, tail);
    ValueIsSkipped(value, trail + tail, 1);
    QuietIsSkipped(trail, tail, 1);
  }

  lemma QuotedDiffers(key: string)
    ensures key == "params" <==> "\"" + key + "\"" == QUOTED_PARAMS
  {
    assert ("\"" + key + "\"")[1..|key| + 1] == key;
    assert QUOTED_PARAMS[1..7] == "params";
  }

  /**
   * The theorem. For every JSON text, in every legal layout, the scan answers exactly the text of
   * the value of the first top-level member spelled `"params"`, and nothing when there is none:
   * for objects without it, and for arrays, strings and literals.
   */
  lemma RawParamsIsParamsOf(lead: string, doc: Value, trail: string)
    requires IsBlank(lead) && WellFormed(doc) && IsBlank(trail)
    ensures Scan(lead + Emit(doc, trail), 0) == ParamsOf(doc)
  {
    QuietIsSkipped(lead, Emit(doc, trail), 0);
    assert trail + "" == trail;
    QuietIsSkipped(trail, "", 0);
    match doc {
      case Literal(text) =>
        LiteralIsPlain(text);
        QuietIsSkipped(text, trail, 0);
      case Str(body) =>
        StringAtDepth(body, trail, 0);
      case Arr(pad, elems) =>
        var inner := EmitElems(elems, "]" + trail);
        CharIsSkipped('[', pad + inner, 0);
        QuietIsSkipped(pad, inner, 1);
        ArrayIsSearchedInVain(elems, trail);
      case Obj(pad, members) =>
        var inner := EmitMembers(members, "}" + trail);
        CharIsSkipped('{', pad + inner, 0);
        QuietIsSkipped(pad, inner, 1);
        MembersAreSearched(members, trail);
    }
  }

  lemma {:induction false} ArrayIsSearchedInVain(es: Elems, rest: string)
    requires WellFormedElems(es)
    ensures Scan(EmitElems(es, "]" + rest), 1) == Scan(rest, 0)
  {
    match es {
      case NoElems => CharIsSkipped(']', rest, 1);
      case Elem(lead, value, trail, more) =>
        var tail := EmitMoreElems(more, "]" + rest);
        assert tail != "" && (tail[0] == ',' || tail[0] == ']');
        QuietIsSkipped(lead, Emit(value, trail + tail), 1);
        BlankIsDropped(trail, tail);
        ValueIsSkipped(value, trail + tail, 1);
        QuietIsSkipped(trail, tail, 1);
        if more.NoElems? {
          CharIsSkipped(']', rest, 1);
        } else {
          CharIsSkipped(',', EmitElems(more, "]" + rest), 1);
          ArrayIsSearchedInVain(more, rest);
        }
    }
  }
}
