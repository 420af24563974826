/**
 * When the scan of RawParams.dfy and `JSON.parse` speak of the same member. The scan takes the first
 * key spelled `"params"`, escapes not being read; parsing reads them, and keeps the last member of a name.
 */
module RawParamsParsed {
  import opened Wrappers
  import opened Json
  import opened JsonDecode
  import opened RawParams
  import opened RawParamsMeaning

  // ----- What JSON.parse makes of an object -----

  const PARAMS: seq<int> := [112, 97, 114, 97, 109, 115]

  /** `JSON.parse(text).params`, in the text it was written in. */
  function ParsedParams(doc: Value): Option<string>
    requires WellFormed(doc)
  {
    if doc.Obj? && PARAMS in Parsed(doc.members) then Some(Print(Parsed(doc.members)[PARAMS])) else None
  }

  // ----- Spellings of the key -----

  predicate IsPlain(key: string) { key == "params" }

  predicate Names(key: string) { IsStringBody(key) && Decoded(key) == PARAMS }

  /** The plain spelling is one of the spellings, and the only one without an escape. */
  lemma SpellingsOfParams(key: string)
    ensures IsPlain(key) ==> Names(key)
    ensures Names(key) && !IsPlain(key) ==> exists k :: 0 <= k < |key| && key[k] == '\\'
  {
    if IsPlain(key) {
      PlainIsABody();
      UnescapedIsAsWritten(key);
    }
    if Names(key) && forall k :: 0 <= k < |key| ==> key[k] != '\\' { UnescapedIsPlain(key); }
  }

  lemma UnescapedIsPlain(key: string)
    requires Names(key) && forall k :: 0 <= k < |key| ==> key[k] != '\\'
    ensures key == "params"
  {
    UnescapedIsAsWritten(key);
    assert forall k :: 0 <= k < |key| ==> key[k] as int == PARAMS[k];
  }

  lemma PlainIsABody()
    ensures IsStringBody("params") && IsStringBody("arams")
  {
    assert "params"[1..] == "arams" && "arams"[1..] == "rams" && "rams"[1..] == "ams" && "ams"[1..] == "ms";
    assert "ms"[1..] == "s" && "s"[1..] == "";
  }

  /** An escaped spelling. */
  lemma EscapedSpelling()
    ensures Names("\\u0070arams") && !IsPlain("\\u0070arams")
  {
    var s, t := "\\u0070arams", "arams";
    assert s[6..] == t && s[2..6] == "0070";
    PlainIsABody();
    UnescapedIsAsWritten(t);
    assert IsStringBody(s);
    assert Decoded(s) == [112] + Decoded(t);
  }

  // ----- Which member each takes -----

  function Keys(ms: Members): seq<string> {
    match ms
    case NoMembers => []
    case Member(_, key, _, _, _, _, rest) => [key] + Keys(rest)
  }

  function ValueAt(ms: Members, n: nat): Value
    requires n < |Keys(ms)|
  {
    if n == 0 then ms.value else ValueAt(ms.rest, n - 1)
  }

  function FirstPlain(keys: seq<string>): (n: Option<nat>)
    ensures n.Some? ==> n.value < |keys| && IsPlain(keys[n.value]) && forall i :: 0 <= i < n.value ==> !IsPlain(keys[i])
    ensures n.None? ==> forall i :: 0 <= i < |keys| ==> !IsPlain(keys[i])
  {
    if keys == [] then None
    else if IsPlain(keys[0]) then Some(0)
    else
      var n := FirstPlain(keys[1..]);
      if n.Some? then Some(n.value + 1) else None
  }

  function LastNamed(keys: seq<string>): (n: Option<nat>)
    ensures n.Some? ==> n.value < |keys| && Names(keys[n.value]) && forall i :: n.value < i < |keys| ==> !Names(keys[i])
    ensures n.None? ==> forall i :: 0 <= i < |keys| ==> !Names(keys[i])
  {
    if keys == [] then None
    else
      var n := LastNamed(keys[1..]);
      if n.Some? then Some(n.value + 1) else if Names(keys[0]) then Some(0) else None
  }

  /** The text of a member's value, if there is a member. */
  function TextAt(ms: Members, n: Option<nat>): Option<string>
    requires n.Some? ==> n.value < |Keys(ms)|
  {
    if n.Some? then Some(Print(ValueAt(ms, n.value))) else None
  }

  /** The scan's answer is the member at the first plain key. */
  lemma {:induction false} ScannedMember(ms: Members)
    ensures FirstParams(ms) == TextAt(ms, FirstPlain(Keys(ms)))
  {
    if ms.Member? {
      ScannedMember(ms.rest);
      assert Keys(ms)[1..] == Keys(ms.rest);
    }
  }

  /** And the parser's the one at the last key that means it. */
  lemma {:induction false} ParsedMember(ms: Members)
    requires WellFormedMembers(ms)
    ensures PARAMS in Parsed(ms) <==> LastNamed(Keys(ms)).Some?
    ensures PARAMS in Parsed(ms) ==> Parsed(ms)[PARAMS] == ValueAt(ms, LastNamed(Keys(ms)).value)
  {
    if ms.Member? {
      ParsedMember(ms.rest);
      assert Keys(ms)[1..] == Keys(ms.rest);
    }
  }

  /** The key is spelled plainly once at most, and every spelling of it is, or comes before, a plain one. */
  ghost predicate PlainSpellingIsLast(keys: seq<string>) {
    && (forall i, j :: 0 <= i < j < |keys| && IsPlain(keys[i]) ==> !IsPlain(keys[j]))
    && (forall i :: 0 <= i < |keys| && Names(keys[i]) ==> exists j :: i <= j < |keys| && IsPlain(keys[j]))
  }

  /** So they take the same member, or neither takes one, exactly under that condition. */
  lemma SameMemberIff(keys: seq<string>)
    ensures FirstPlain(keys) == LastNamed(keys) <==> PlainSpellingIsLast(keys)
  {
    var first, last := FirstPlain(keys), LastNamed(keys);
    forall i | 0 <= i < |keys| ensures IsPlain(keys[i]) ==> Names(keys[i]) { SpellingsOfParams(keys[i]); }
    if first == last && last.Some? {
      assert IsPlain(keys[last.value]);
    }
  }

  /** Neither half of it can be dropped: an escaped key is parsed only, of two plain keys each takes another. */
  lemma BothHalvesMatter()
    ensures FirstPlain(["\\u0070arams"]) == None && LastNamed(["\\u0070arams"]) == Some(0)
    ensures FirstPlain(["params", "params"]) == Some(0) && LastNamed(["params", "params"]) == Some(1)
  {
    EscapedSpelling();
    SpellingsOfParams("params");
  }

  /**
   * What was scanned is the text of what is parsed exactly when the key is spelled so, or when the two
   * members that differ are written alike.
   */
  lemma ScannedIsParsedIff(lead: string, doc: Value, trail: string)
    requires IsBlank(lead) && WellFormed(doc) && IsBlank(trail)
    ensures !doc.Obj? ==> Scan(lead + Emit(doc, trail), 0) == ParsedParams(doc) == None
    ensures doc.Obj? ==>
      var first, last := FirstPlain(Keys(doc.members)), LastNamed(Keys(doc.members));
      Scan(lead + Emit(doc, trail), 0) == ParsedParams(doc) <==>
        || PlainSpellingIsLast(Keys(doc.members))
        || (first.Some? && last.Some? && TextAt(doc.members, first) == TextAt(doc.members, last))
  {
    RawParamsIsParamsOf(lead, doc, trail);
    if doc.Obj? {
      ScannedMember(doc.members);
      ParsedMember(doc.members);
      SameMemberIff(Keys(doc.members));
    }
  }
}
