/**
 * packages/log/src/index.ts: how a call's fields and its surroundings become the payload of a line,
 * and when the recorder can split that line again. An object keeps its own fields in the order they
 * were set; it lists those named like array indices first, by number, as every object does.
 */
module LogPayload {
  import opened Wrappers
  import opened Texts
  import opened Json
  import opened LogLines

  /** The names in the order they were set; a name without a value was set to undefined. */
  datatype Fields = Fields(names: seq<string>, values: map<string, Value>)

  const NO_FIELDS := Fields([], map[])

  /** Values are what `JSON.stringify` makes of them. */
  ghost predicate AreFields(f: Fields) {
    && (forall name :: name in f.values ==> name in f.names)
    && (forall name :: name in f.values ==> WellFormed(f.values[name]) && Compact(f.values[name]))
  }

  function Get(f: Fields, name: string): Option<Value> { if name in f.values then Some(f.values[name]) else None }

  /** `object[name] = value`. */
  function Put(f: Fields, name: string, value: Option<Value>): Fields {
    Fields(if name in f.names then f.names else f.names + [name],
           match value case None => f.values - {name} case Some(v) => f.values[name := v])
  }

  // ----- The order in which an object lists its fields -----

  /** The canonical numeral of an array index, which is less than 2 to the 32nd less one. */
  predicate IsIndex(name: string) {
    && name != "" && (forall k :: 0 <= k < |name| ==> IsDigit(name[k]))
    && (name[0] == '0' ==> |name| == 1) && DecimalValue(name) < 0xFFFF_FFFF
  }

  /** The numerals of the numbers below 2 to the 32nd less one, as a program prints them, and nothing else. */
  lemma IndexIff(name: string)
    ensures IsIndex(name) <==> exists n: nat :: n < 4294967295 && name == Decimal(n)
  {
    if IsIndex(name) { NumeralOfValue(name); }
    if n: nat :| n < 4294967295 && name == Decimal(n) {
      DecimalRoundTrip(n);
      NoLeadingZero(n);
    }
  }

  lemma {:induction false} NumeralOfValue(s: string)
    requires s != "" && (forall k :: 0 <= k < |s| ==> IsDigit(s[k])) && (s[0] == '0' ==> |s| == 1)
    ensures Decimal(DecimalValue(s)) == s && (DecimalValue(s) == 0 <==> s == "0")
  {
    var before, last := s[..|s| - 1], s[|s| - 1];
    assert s == before + [last];
    if before != "" {
      NumeralOfValue(before);
    }
  }

  lemma {:induction false} NoLeadingZero(n: nat)
    ensures Decimal(n)[0] == '0' <==> n == 0
    ensures n < 10 ==> |Decimal(n)| == 1
  {
    if n >= 10 { NoLeadingZero(n / 10); }
  }

  function IndexValue(name: string): nat { if IsIndex(name) then DecimalValue(name) else 0 }

  /** Where a stable sort by `value` puts one more name. */
  function InsertBy(value: string -> nat, name: string, sorted: seq<string>): seq<string> {
    if sorted == [] || value(name) < value(sorted[0]) then [name] + sorted
    else [sorted[0]] + InsertBy(value, name, sorted[1..])
  }

  /** The index-like names, by number. */
  function Indices(names: seq<string>): seq<string> {
    if names == [] then []
    else if IsIndex(names[0]) then InsertBy(IndexValue, names[0], Indices(names[1..])) else Indices(names[1..])
  }

  /** The other names, as they stand. */
  function Others(names: seq<string>): seq<string> {
    if names == [] then [] else (if IsIndex(names[0]) then [] else [names[0]]) + Others(names[1..])
  }

  function OwnOrder(names: seq<string>): seq<string> { Indices(names) + Others(names) }

  predicate AscendingBy(value: string -> nat, names: seq<string>) {
    names != [] ==>
      (forall name :: name in names[1..] ==> value(names[0]) <= value(name)) && AscendingBy(value, names[1..])
  }

  lemma {:induction false} InsertIs(value: string -> nat, name: string, sorted: seq<string>)
    ensures multiset(InsertBy(value, name, sorted)) == multiset(sorted) + multiset{name}
    ensures forall x :: x in InsertBy(value, name, sorted) <==> x in sorted || x == name
  {
    if sorted != [] && value(sorted[0]) <= value(name) {
      InsertIs(value, name, sorted[1..]);
      assert sorted == [sorted[0]] + sorted[1..];
    }
  }

  lemma {:induction false} InsertKeepsOrder(value: string -> nat, name: string, sorted: seq<string>)
    requires AscendingBy(value, sorted)
    ensures AscendingBy(value, InsertBy(value, name, sorted))
  {
    var after := InsertBy(value, name, sorted);
    if sorted == [] || value(name) < value(sorted[0]) {
      assert after[1..] == sorted;
      assert sorted != [] ==> sorted == [sorted[0]] + sorted[1..];
    } else {
      InsertKeepsOrder(value, name, sorted[1..]);
      InsertIs(value, name, sorted[1..]);
      assert after[1..] == InsertBy(value, name, sorted[1..]);
    }
  }

  lemma {:induction false} IndicesAscend(names: seq<string>)
    ensures AscendingBy(IndexValue, Indices(names))
  {
    if names != [] {
      IndicesAscend(names[1..]);
      if IsIndex(names[0]) { InsertKeepsOrder(IndexValue, names[0], Indices(names[1..])); }
    }
  }

  /** The own order holds each name as often as before: the index-like ones, by number, then the others as set. */
  lemma OwnOrderIs(names: seq<string>)
    ensures forall name :: name in Indices(names) <==> name in names && IsIndex(name)
    ensures forall name :: name in Others(names) <==> name in names && !IsIndex(name)
    ensures multiset(OwnOrder(names)) == multiset(names)
    ensures AscendingBy(IndexValue, Indices(names))
  {
    PartsAre(names);
    IndicesAscend(names);
  }

  lemma {:induction false} PartsAre(names: seq<string>)
    ensures forall name :: name in Indices(names) <==> name in names && IsIndex(name)
    ensures forall name :: name in Others(names) <==> name in names && !IsIndex(name)
    ensures multiset(Indices(names)) + multiset(Others(names)) == multiset(names)
  {
    if names != [] {
      PartsAre(names[1..]);
      assert names == [names[0]] + names[1..];
      if IsIndex(names[0]) { InsertIs(IndexValue, names[0], Indices(names[1..])); }
    }
  }

  lemma OwnOrderListsAll(names: seq<string>, name: string)
    ensures name in OwnOrder(names) <==> name in names
  {
    PartsAre(names);
  }

  // ----- Spreading -----

  /** `{...into, ...from}` for the fields of `from` listed in `order`. */
  function Spread(into: Fields, from: Fields, order: seq<string>): Fields {
    if order == [] then into
    else
      var last := order[|order| - 1];
      Put(Spread(into, from, order[..|order| - 1]), last, Get(from, last))
  }

  function SpreadAll(into: Fields, from: Fields): Fields { Spread(into, from, OwnOrder(from.names)) }

  /** What was set before stays in front, and a name spread has the value it is spread with. */
  lemma {:induction false} SpreadSets(into: Fields, from: Fields, order: seq<string>)
    ensures into.names <= Spread(into, from, order).names
    ensures forall name :: name in Spread(into, from, order).names <==> name in into.names || name in order
    ensures forall name ::
      Get(Spread(into, from, order), name) == if name in order then Get(from, name) else Get(into, name)
  {
    if order != [] {
      var before, last := order[..|order| - 1], order[|order| - 1];
      SpreadSets(into, from, before);
      assert order == before + [last];
    }
  }

  lemma SpreadKeepsFields(into: Fields, from: Fields, order: seq<string>)
    requires AreFields(into) && AreFields(from)
    ensures AreFields(Spread(into, from, order))
  {
    SpreadSets(into, from, order);
    var after := Spread(into, from, order);
    forall name | name in after.values
      ensures name in after.names && WellFormed(after.values[name]) && Compact(after.values[name])
    {
      assert Get(after, name) == if name in order then Get(from, name) else Get(into, name);
    }
  }

  // ----- The payload -----

  const CANONICAL := ["ts", "level", "component", "event"]

  function Text(s: string): Value { Str(Escape(s)) }

  /** The four fields that belong to the logger. */
  function Loggers(ts: string, level: Level, component: string, event: string): Fields {
    Fields(CANONICAL, map["ts" := Text(ts), "level" := Text(LevelText(level)), "component" := Text(component),
                          "event" := Text(event)])
  }

  function Merged(ambient: Fields, fields: Fields): Fields { SpreadAll(SpreadAll(NO_FIELDS, ambient), fields) }

  function WithoutCanonical(order: seq<string>): seq<string> {
    if order == [] then []
    else (if order[0] in CANONICAL then [] else [order[0]]) + WithoutCanonical(order[1..])
  }

  /** `const { ts, level, component, event, ...rest } = merged`. */
  function Rest(merged: Fields): Fields { Spread(NO_FIELDS, merged, WithoutCanonical(OwnOrder(merged.names))) }

  function Payload(ts: string, level: Level, component: string, event: string, ambient: Fields,
                   fields: Fields): Fields {
    SpreadAll(Loggers(ts, level, component, event), Rest(Merged(ambient, fields)))
  }

  function MembersOf(names: seq<string>, values: map<string, Value>): Members {
    if names == [] then NoMembers
    else if names[0] in values
    then Member("", Escape(names[0]), "", "", values[names[0]], "", MembersOf(names[1..], values))
    else MembersOf(names[1..], values)
  }

  /** `JSON.stringify` of an object: the fields that have a value, in the object's own order. */
  function Stringify(f: Fields): string { Print(Obj("", MembersOf(OwnOrder(f.names), f.values))) }

  // ----- What the payload holds -----

  /** What the call states under a name, its surroundings if it says nothing. */
  function Stated(ambient: Fields, fields: Fields, name: string): Option<Value> {
    if name in fields.names then Get(fields, name) else Get(ambient, name)
  }

  lemma {:induction false} WithoutCanonicalIs(order: seq<string>, name: string)
    ensures name in WithoutCanonical(order) <==> name in order && name !in CANONICAL
  {
    if order != [] {
      WithoutCanonicalIs(order[1..], name);
      assert order == [order[0]] + order[1..];
    }
  }

  lemma MergedIs(ambient: Fields, fields: Fields, name: string)
    requires AreFields(ambient) && AreFields(fields)
    ensures Get(Merged(ambient, fields), name) == Stated(ambient, fields, name)
    ensures name in Merged(ambient, fields).names <==> name in ambient.names || name in fields.names
  {
    var first := SpreadAll(NO_FIELDS, ambient);
    SpreadSets(NO_FIELDS, ambient, OwnOrder(ambient.names));
    SpreadSets(first, fields, OwnOrder(fields.names));
    OwnOrderListsAll(ambient.names, name);
    OwnOrderListsAll(fields.names, name);
  }

  /** The four canonical fields are the logger's, whatever else is said; every other is as stated. */
  lemma PayloadHolds(ts: string, level: Level, component: string, event: string, ambient: Fields, fields: Fields,
                     name: string)
    requires AreFields(ambient) && AreFields(fields)
    ensures Get(Payload(ts, level, component, event, ambient, fields), name)
         == if name in CANONICAL then Get(Loggers(ts, level, component, event), name) else Stated(ambient, fields, name)
    ensures CANONICAL <= Payload(ts, level, component, event, ambient, fields).names
  {
    var merged := Merged(ambient, fields);
    var rest := Rest(merged);
    MergedIs(ambient, fields, name);
    SpreadSets(NO_FIELDS, merged, WithoutCanonical(OwnOrder(merged.names)));
    WithoutCanonicalIs(OwnOrder(merged.names), name);
    OwnOrderListsAll(merged.names, name);
    SpreadSets(Loggers(ts, level, component, event), rest, OwnOrder(rest.names));
    OwnOrderListsAll(rest.names, name);
  }

  // ----- What is printed first -----

  predicate NothingPrinted(names: seq<string>, values: map<string, Value>) {
    forall name :: name in names ==> name !in values
  }

  lemma {:induction false} UnprintedAreSkipped(a: seq<string>, b: seq<string>, values: map<string, Value>)
    requires NothingPrinted(a, values)
    ensures MembersOf(a + b, values) == MembersOf(b, values)
  {
    if a == [] {
      assert a + b == b;
    } else {
      assert a == [a[0]] + a[1..];
      UnprintedAreSkipped(a[1..], b, values);
      assert (a + b)[1..] == a[1..] + b;
    }
  }

  lemma {:induction false} FirstPrinted(a: seq<string>, b: seq<string>, values: map<string, Value>)
    requires !NothingPrinted(a, values)
    ensures var ms := MembersOf(a + b, values);
      ms.Member? && ms.lead == "" && exists name :: name in a && ms.key == Escape(name)
  {
    assert a != [] && (a + b)[1..] == a[1..] + b;
    if a[0] !in values {
      assert a == [a[0]] + a[1..];
      FirstPrinted(a[1..], b, values);
    }
  }

  lemma IndexPrintsDigit(name: string, ms: Members)
    requires IsIndex(name) && ms.Member? && ms.lead == "" && ms.key == Escape(name)
    ensures !StartsWithTs(Print(Obj("", ms)))
  {
    var text := Print(Obj("", ms));
    assert EscapeChar(name[0]) == [name[0]] && ms.key[0] == name[0];
    var tail := ms.gap + (":" + (ms.space + Emit(ms.value, ms.trail + EmitMoreMembers(ms.rest, "}"))));
    assert "}" + "" == "}";
    assert EmitMembers(ms, "}") == "" + EmitString(ms.key, tail);
    assert text == "{" + ("" + ("" + EmitString(ms.key, tail)));
    assert EmitString(ms.key, tail) == "\"" + (ms.key + ("\"" + tail));
    assert text[2] == name[0];
    assert |text| >= 7 ==> text[..7][2] == text[2];
  }

  lemma OthersStartWithTs(names: seq<string>)
    requires CANONICAL <= names
    ensures |Others(names)| > 0 && Others(names)[0] == "ts"
  {
    assert names[0] == CANONICAL[0] && !IsIndex("ts");
  }

  lemma TsIsFirst(names: seq<string>, values: map<string, Value>, ts: string)
    requires names != [] && names[0] == "ts" && "ts" in values && values["ts"] == Text(ts)
    ensures StartsWithTs(Print(Obj("", MembersOf(names, values))))
  {
    PayloadStartsWithTs(ts, MembersOf(names[1..], values));
    UnescapedIsItself("ts");
  }

  lemma IndexIsFirst(a: seq<string>, b: seq<string>, values: map<string, Value>)
    requires !NothingPrinted(a, values) && forall name :: name in a ==> IsIndex(name)
    ensures !StartsWithTs(Print(Obj("", MembersOf(a + b, values))))
  {
    FirstPrinted(a, b, values);
    var name :| name in a && MembersOf(a + b, values).key == Escape(name);
    IndexPrintsDigit(name, MembersOf(a + b, values));
  }

  /** The payload's text begins with ts exactly when no index-like name of it is printed. */
  lemma StartsWithTsIff(f: Fields, ts: string)
    requires CANONICAL <= f.names && Get(f, "ts") == Some(Text(ts))
    ensures StartsWithTs(Stringify(f)) <==> NothingPrinted(Indices(f.names), f.values)
  {
    PartsAre(f.names);
    if NothingPrinted(Indices(f.names), f.values) {
      UnprintedAreSkipped(Indices(f.names), Others(f.names), f.values);
      OthersStartWithTs(f.names);
      TsIsFirst(Others(f.names), f.values, ts);
    } else {
      IndexIsFirst(Indices(f.names), Others(f.names), f.values);
    }
  }

  lemma {:induction false} MembersAreJson(names: seq<string>, f: Fields)
    requires AreFields(f)
    ensures WellFormedMembers(MembersOf(names, f.values)) && CompactMembers(MembersOf(names, f.values))
  {
    if names != [] {
      MembersAreJson(names[1..], f);
      EscapeIsStringBody(names[0]);
    }
  }

  // ----- The line -----

  /** No field named like an array index has a value. */
  ghost predicate NoIndexStated(ambient: Fields, fields: Fields) {
    forall name :: IsIndex(name) ==> Stated(ambient, fields, name).None?
  }

  lemma NoIndexPrintedIff(p: Fields, ambient: Fields, fields: Fields)
    requires AreFields(p)
    requires forall name :: IsIndex(name) ==> Get(p, name) == Stated(ambient, fields, name)
    ensures NothingPrinted(Indices(p.names), p.values) <==> NoIndexStated(ambient, fields)
  {
    PartsAre(p.names);
  }

  lemma IndexIsNotCanonical(name: string)
    requires IsIndex(name)
    ensures name !in CANONICAL
  {
    assert IsDigit(name[0]) && !IsDigit('t') && !IsDigit('l') && !IsDigit('c') && !IsDigit('e');
  }

  lemma PayloadIsFields(ts: string, level: Level, component: string, event: string, ambient: Fields, fields: Fields)
    requires AreFields(ambient) && AreFields(fields)
    ensures AreFields(Payload(ts, level, component, event, ambient, fields))
  {
    LoggersAreFields(ts, level, component, event);
    SpreadKeepsFields(NO_FIELDS, ambient, OwnOrder(ambient.names));
    SpreadKeepsFields(SpreadAll(NO_FIELDS, ambient), fields, OwnOrder(fields.names));
    var merged := Merged(ambient, fields);
    SpreadKeepsFields(NO_FIELDS, merged, WithoutCanonical(OwnOrder(merged.names)));
    SpreadKeepsFields(Loggers(ts, level, component, event), Rest(merged), OwnOrder(Rest(merged).names));
  }

  lemma TextIsJson(s: string)
    ensures WellFormed(Text(s)) && Compact(Text(s))
  {
    EscapeIsStringBody(s);
  }

  lemma LoggersAreFields(ts: string, level: Level, component: string, event: string)
    ensures AreFields(Loggers(ts, level, component, event))
  {
    TextIsJson(ts);
    TextIsJson(LevelText(level));
    TextIsJson(component);
    TextIsJson(event);
    var f := Loggers(ts, level, component, event);
    assert f.values.Keys == {"ts", "level", "component", "event"};
    assert CANONICAL[0] == "ts" && CANONICAL[1] == "level" && CANONICAL[2] == "component" && CANONICAL[3] == "event";
  }

  lemma PayloadIndices(ts: string, level: Level, component: string, event: string, ambient: Fields, fields: Fields)
    requires AreFields(ambient) && AreFields(fields)
    ensures var p := Payload(ts, level, component, event, ambient, fields);
      forall name :: IsIndex(name) ==> Get(p, name) == Stated(ambient, fields, name)
  {
    var p := Payload(ts, level, component, event, ambient, fields);
    forall name | IsIndex(name) ensures Get(p, name) == Stated(ambient, fields, name) {
      IndexIsNotCanonical(name);
      PayloadHolds(ts, level, component, event, ambient, fields, name);
    }
  }

  /** The payload's text, and which of its index-like names are printed. */
  lemma PayloadIsPrinted(ts: string, level: Level, component: string, event: string, ambient: Fields, fields: Fields)
    requires AreFields(ambient) && AreFields(fields)
    ensures var p := Payload(ts, level, component, event, ambient, fields);
      && WellFormed(Obj("", MembersOf(OwnOrder(p.names), p.values)))
      && Compact(Obj("", MembersOf(OwnOrder(p.names), p.values)))
      && (StartsWithTs(Stringify(p)) <==> NoIndexStated(ambient, fields))
  {
    var p := Payload(ts, level, component, event, ambient, fields);
    PayloadIsFields(ts, level, component, event, ambient, fields);
    MembersAreJson(OwnOrder(p.names), p);
    PayloadIndices(ts, level, component, event, ambient, fields);
    PayloadHasTs(ts, level, component, event, ambient, fields);
    FieldsArePrinted(p, ts, ambient, fields);
  }

  lemma PayloadHasTs(ts: string, level: Level, component: string, event: string, ambient: Fields, fields: Fields)
    requires AreFields(ambient) && AreFields(fields)
    ensures var p := Payload(ts, level, component, event, ambient, fields);
      CANONICAL <= p.names && Get(p, "ts") == Some(Text(ts))
  {
    LoggersHaveTs(ts, level, component, event);
    PayloadHolds(ts, level, component, event, ambient, fields, "ts");
  }

  lemma LoggersHaveTs(ts: string, level: Level, component: string, event: string)
    ensures "ts" in CANONICAL && Get(Loggers(ts, level, component, event), "ts") == Some(Text(ts))
  {
    assert CANONICAL[0] == "ts";
  }

  lemma FieldsArePrinted(p: Fields, ts: string, ambient: Fields, fields: Fields)
    requires AreFields(p) && CANONICAL <= p.names && Get(p, "ts") == Some(Text(ts))
    requires forall name :: IsIndex(name) ==> Get(p, name) == Stated(ambient, fields, name)
    ensures StartsWithTs(Stringify(p)) <==> NoIndexStated(ambient, fields)
  {
    StartsWithTsIff(p, ts);
    NoIndexPrintedIff(p, ambient, fields);
  }

  /**
   * For every sentence, even one that holds the tail marker, and all fields a call and its
   * surroundings may state: the recorder recovers exactly the sentence and exactly the payload from
   * the line if and only if no field named like an array index has a value.
   */
  lemma EmittedLineSplitsIff(ambient: Fields, fields: Fields, ts: string, level: Level, component: string,
                             event: string, sentence: string)
    requires AreFields(ambient) && AreFields(fields) && '[' !in ts
    ensures var text := Stringify(Payload(ts, level, component, event, ambient, fields));
      (Split(component, Render(ts, level, component, sentence, text)) == Halves(sentence, text)) <==>
      NoIndexStated(ambient, fields)
  {
    var p := Payload(ts, level, component, event, ambient, fields);
    PayloadIsPrinted(ts, level, component, event, ambient, fields);
    SplitRecoversRendered(ts, level, component, sentence, Obj("", MembersOf(OwnOrder(p.names), p.values)));
  }

  /** A single field named "0" makes the recorder misread every line it is on. */
  lemma IndexFieldBreaksTheLine(ts: string, level: Level, component: string, event: string, sentence: string)
    requires '[' !in ts
    ensures var text := Stringify(Payload(ts, level, component, event, NO_FIELDS,
                                          Fields(["0"], map["0" := Literal("true")])));
      Split(component, Render(ts, level, component, sentence, text)) != Halves(sentence, text)
  {
    var fields := Fields(["0"], map["0" := Literal("true")]);
    assert "0" in fields.names && IsLiteral("true") && IsDigit("0"[0]);
    assert DecimalValue("0") == 0 by { assert "0"[..0] == ""; }
    assert IsIndex("0") && Stated(NO_FIELDS, fields, "0").Some?;
    EmittedLineSplitsIff(NO_FIELDS, fields, ts, level, component, event, sentence);
  }
}
