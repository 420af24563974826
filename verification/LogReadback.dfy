/**
 * packages/log/src/index.ts, read by a program: what `JSON.parse` of an emitted payload holds, field by field.
 */
module LogReadback {
  import opened Wrappers
  import opened Json
  import opened JsonDecode
  import opened LogLines
  import opened LogPayload

  lemma CodesDiffer(a: string, b: string)
    ensures Codes(a) == Codes(b) <==> a == b
  {
    if Codes(a) == Codes(b) {
      assert |a| == |Codes(a)| == |b|;
      forall k | 0 <= k < |a| ensures a[k] == b[k] {
        assert a[k] as int == Codes(a)[k] == b[k] as int;
      }
    }
  }

  /** The object holds the fields that are listed and have a value, each under its own name. */
  ghost predicate HoldsListed(names: seq<string>, values: map<string, Value>, name: string)
    requires WellFormedMembers(MembersOf(names, values))
  {
    var read := Parsed(MembersOf(names, values));
    && (Codes(name) in read <==> name in names && name in values)
    && (Codes(name) in read && name in values ==> read[Codes(name)] == values[name])
  }

  lemma {:induction false} MembersReadBack(names: seq<string>, f: Fields, name: string)
    requires AreFields(f)
    ensures WellFormedMembers(MembersOf(names, f.values)) && HoldsListed(names, f.values, name)
  {
    MembersAreJson(names, f);
    if names != [] {
      MembersReadBack(names[1..], f, name);
      EscapeRoundTrip(names[0]);
      CodesDiffer(names[0], name);
      assert names == [names[0]] + names[1..];
    }
  }

  /** What reading the text of an object gives under a name. */
  ghost function ReadBack(f: Fields, name: string): Option<Value>
    requires WellFormedMembers(MembersOf(OwnOrder(f.names), f.values))
  {
    var read := Parsed(MembersOf(OwnOrder(f.names), f.values));
    if Codes(name) in read then Some(read[Codes(name)]) else None
  }

  lemma FieldIsReadBack(f: Fields, name: string)
    requires AreFields(f)
    ensures WellFormedMembers(MembersOf(OwnOrder(f.names), f.values)) && ReadBack(f, name) == Get(f, name)
  {
    MembersReadBack(OwnOrder(f.names), f, name);
    OwnOrderListsAll(f.names, name);
  }

  lemma PayloadField(ts: string, level: Level, component: string, event: string, ambient: Fields, fields: Fields,
                     name: string)
    requires AreFields(ambient) && AreFields(fields)
    ensures Get(Payload(ts, level, component, event, ambient, fields), name)
         == if name == "ts" then Some(Text(ts))
            else if name == "level" then Some(Text(LevelText(level)))
            else if name == "component" then Some(Text(component))
            else if name == "event" then Some(Text(event))
            else Stated(ambient, fields, name)
  {
    PayloadHolds(ts, level, component, event, ambient, fields, name);
    CanonicalAre(name);
  }

  /**
   * Reading an emitted payload gives the logger's own four fields as the line states them, and every
   * other field as the call states it, or its surroundings where the call says nothing; no more, no less.
   */
  lemma PayloadIsReadBack(ts: string, level: Level, component: string, event: string, ambient: Fields, fields: Fields,
                          name: string)
    requires AreFields(ambient) && AreFields(fields)
    ensures var p := Payload(ts, level, component, event, ambient, fields);
      && WellFormedMembers(MembersOf(OwnOrder(p.names), p.values))
      && ReadBack(p, name)
         == if name == "ts" then Some(Text(ts))
            else if name == "level" then Some(Text(LevelText(level)))
            else if name == "component" then Some(Text(component))
            else if name == "event" then Some(Text(event))
            else Stated(ambient, fields, name)
  {
    PayloadIsFields(ts, level, component, event, ambient, fields);
    FieldIsReadBack(Payload(ts, level, component, event, ambient, fields), name);
    PayloadField(ts, level, component, event, ambient, fields, name);
  }

  lemma CanonicalAre(name: string)
    ensures name in CANONICAL <==> name == "ts" || name == "level" || name == "component" || name == "event"
  {
    assert CANONICAL[0] == "ts" && CANONICAL[1] == "level" && CANONICAL[2] == "component" && CANONICAL[3] == "event";
  }
}
