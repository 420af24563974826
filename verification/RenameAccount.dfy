/**
 * packages/http/src/rename-account.ts: renaming a local account in every column where its name is
 * a live reference, across two databases that share no transaction. A table is a sequence of rows
 * under its unique keys; a statement that would break a key throws and changes nothing.
 */
module RenameAccount {
  import opened Wrappers
  import opened Counting

  type Row = map<string, string>

  type Reference = (string, string)   // table, column

  datatype Table = Table(columns: set<string>, keys: set<set<string>>, rows: seq<Row>) {
    predicate Shaped() { forall i :: 0 <= i < |rows| ==> rows[i].Keys == columns }
  }

  type Database = map<string, Table>

  const MESH_REFERENCES: seq<Reference> := [
    ("role_grants", "subject"),
    ("agent_owners", "owner"),
    ("agent_owners", "identity"),
    ("agent_group_members", "identity"),
    ("agents", "identity"),
    ("agent_keys", "identity"),
    ("pairing_codes", "identity")
  ]

  const LOCAL_REFERENCES: seq<Reference> := [
    ("agent_registry", "id"),
    ("policies", "github_login"),
    ("push_subscriptions", "github_login"),
    ("users", "github_login"),
    ("local_users", "username")
  ]

  datatype Reason = NoSuchAccount | NameTaken(blockedBy: Reference) | WriteFailed

  datatype Outcome = Renamed(moved: map<Reference, nat>) | Refused(reason: Reason)

  /** What may go wrong besides the refusals: a database throws, or the process dies between the commits. */
  datatype Fault = NoFault | MeshThrows | DiesBetween | LocalThrows

  // ----- What a rename is -----

  predicate Differ(a: Row, b: Row, key: set<string>) { exists c :: c in key && Cell(a, c) != Cell(b, c) }

  predicate UniqueOn(rows: seq<Row>, key: set<string>) {
    forall i, j :: 0 <= i < j < |rows| ==> Differ(rows[i], rows[j], key)
  }

  function Cell(row: Row, c: string): Option<string> { if c in row then Some(row[c]) else None }

  ghost predicate Consistent(db: Database) {
    forall t :: t in db ==> db[t].Shaped() && forall key :: key in db[t].keys ==> UniqueOn(db[t].rows, key)
  }

  predicate Holds(db: Database, r: Reference, name: string) {
    && r.0 in db && r.1 in db[r.0].columns
    && exists i :: 0 <= i < |db[r.0].rows| && Cell(db[r.0].rows[i], r.1) == Some(name)
  }

  predicate Clashes(db: Database, r: Reference, from: string, to: string) { Holds(db, r, to) && Holds(db, r, from) }

  ghost predicate ClashFree(db: Database, refs: seq<Reference>, from: string, to: string) {
    forall r :: r in refs ==> !Clashes(db, r, from, to)
  }

  function ColumnsOf(refs: seq<Reference>, t: string): set<string> {
    set r | r in refs && r.0 == t :: r.1
  }

  function RowAfter(row: Row, columns: set<string>, from: string, to: string): Row {
    map c | c in row :: if c in columns && row[c] == from then to else row[c]
  }

  function RowsAfter(rows: seq<Row>, columns: set<string>, from: string, to: string): (r: seq<Row>)
    ensures |r| == |rows|
    ensures forall i :: 0 <= i < |rows| ==> r[i] == RowAfter(rows[i], columns, from, to)
  {
    seq(|rows|, i requires 0 <= i < |rows| => RowAfter(rows[i], columns, from, to))
  }

  /** The database with the old name replaced in the listed columns, row by row, and nothing else. */
  function After(db: Database, refs: seq<Reference>, from: string, to: string): Database {
    map t | t in db :: db[t].(rows := RowsAfter(db[t].rows, ColumnsOf(refs, t), from, to))
  }

  lemma RowTwice(row: Row, a: set<string>, b: set<string>, from: string, to: string)
    requires from != to
    ensures RowAfter(RowAfter(row, a, from, to), b, from, to) == RowAfter(row, a + b, from, to)
  {
  }

  lemma RowsTwice(rows: seq<Row>, a: set<string>, b: set<string>, from: string, to: string)
    requires from != to
    ensures RowsAfter(RowsAfter(rows, a, from, to), b, from, to) == RowsAfter(rows, a + b, from, to)
  {
    forall i | 0 <= i < |rows|
      ensures RowsAfter(RowsAfter(rows, a, from, to), b, from, to)[i] == RowsAfter(rows, a + b, from, to)[i]
    {
      RowTwice(rows[i], a, b, from, to);
    }
  }

  // ----- What it keeps -----

  lemma NoOldNameLeft(db: Database, refs: seq<Reference>, from: string, to: string, r: Reference)
    requires from != to && r in refs
    ensures !Holds(After(db, refs, from, to), r, from)
  {
    if r.0 in db {
      assert r.1 in ColumnsOf(refs, r.0);
    }
  }

  /** Two names never meet in a column, so rows that differ on a key still do. */
  lemma KeysAreKept(t: Table, columns: set<string>, from: string, to: string, key: set<string>)
    requires t.Shaped() && UniqueOn(t.rows, key)
    requires forall c :: c in columns && c in t.columns ==>
      !((exists i :: 0 <= i < |t.rows| && Cell(t.rows[i], c) == Some(to))
        && (exists i :: 0 <= i < |t.rows| && Cell(t.rows[i], c) == Some(from)))
    ensures UniqueOn(RowsAfter(t.rows, columns, from, to), key)
  {
    var rows := RowsAfter(t.rows, columns, from, to);
    forall i, j | 0 <= i < j < |rows| ensures Differ(rows[i], rows[j], key) {
      assert Differ(t.rows[i], t.rows[j], key);
      var c :| c in key && Cell(t.rows[i], c) != Cell(t.rows[j], c);
      assert t.rows[i].Keys == t.columns && t.rows[j].Keys == t.columns;
      assert rows[i] == RowAfter(t.rows[i], columns, from, to) && rows[j] == RowAfter(t.rows[j], columns, from, to);
      assert Cell(rows[i], c) != Cell(rows[j], c);
    }
  }

  /** A clash-free rename merges no two rows: every unique key of every table still holds. */
  lemma RenameKeepsConsistency(db: Database, refs: seq<Reference>, from: string, to: string)
    requires Consistent(db) && ClashFree(db, refs, from, to)
    ensures Consistent(After(db, refs, from, to))
  {
    var after := After(db, refs, from, to);
    forall t, key | t in db && key in db[t].keys ensures UniqueOn(after[t].rows, key) {
      TableIsClashFree(db, refs, from, to, t);
      KeysAreKept(db[t], ColumnsOf(refs, t), from, to, key);
    }
    forall t | t in db ensures after[t].Shaped() {
      forall i | 0 <= i < |after[t].rows| ensures after[t].rows[i].Keys == after[t].columns {
        assert RowAfter(db[t].rows[i], ColumnsOf(refs, t), from, to).Keys == db[t].rows[i].Keys;
      }
    }
  }

  lemma TableIsClashFree(db: Database, refs: seq<Reference>, from: string, to: string, t: string)
    requires ClashFree(db, refs, from, to) && t in db
    ensures forall c :: c in ColumnsOf(refs, t) && c in db[t].columns ==>
      !((exists i :: 0 <= i < |db[t].rows| && Cell(db[t].rows[i], c) == Some(to))
        && (exists i :: 0 <= i < |db[t].rows| && Cell(db[t].rows[i], c) == Some(from)))
  {
    forall c | c in ColumnsOf(refs, t) && c in db[t].columns ensures !Clashes(db, (t, c), from, to) {
      var r :| r in refs && r.0 == t && r.1 == c;
      assert r == (t, c);
    }
  }

  /** Cells outside the listed columns, and cells that held another name, are as they were. */
  lemma NothingElseChanges(db: Database, refs: seq<Reference>, from: string, to: string, t: string, i: nat, c: string)
    requires t in db && i < |db[t].rows| && c in db[t].rows[i]
    ensures var after := After(db, refs, from, to);
      && after.Keys == db.Keys && |after[t].rows| == |db[t].rows|
      && after[t].columns == db[t].columns && after[t].keys == db[t].keys
      && after[t].rows[i].Keys == db[t].rows[i].Keys
      && after[t].rows[i][c] == if (t, c) in refs && db[t].rows[i][c] == from then to else db[t].rows[i][c]
  {
    if c in ColumnsOf(refs, t) {
      var r :| r in refs && r.0 == t && r.1 == c;
      assert r == (t, c);
    }
    if (t, c) in refs { assert (t, c).1 in ColumnsOf(refs, t); }
  }

  /** Applied a second time it changes nothing, so the half already done is recognised and skipped. */
  lemma RenameIsIdempotent(db: Database, refs: seq<Reference>, from: string, to: string)
    requires from != to
    ensures After(After(db, refs, from, to), refs, from, to) == After(db, refs, from, to)
    ensures ClashFree(After(db, refs, from, to), refs, from, to)
  {
    var once := After(db, refs, from, to);
    var twice := After(once, refs, from, to);
    forall t | t in db ensures twice[t] == once[t] {
      var columns := ColumnsOf(refs, t);
      RowsTwice(db[t].rows, columns, columns, from, to);
      assert columns + columns == columns;
    }
    forall r | r in refs ensures !Clashes(once, r, from, to) {
      NoOldNameLeft(db, refs, from, to, r);
    }
  }

  // ----- One column at a time -----

  function Matching(rows: seq<Row>, c: string, name: string): nat {
    if rows == [] then 0 else (if Cell(rows[0], c) == Some(name) then 1 else 0) + Matching(rows[1..], c, name)
  }

  /** The rows whose cell in the column holds the name. */
  function RowsNamed(rows: seq<Row>, c: string, name: string): set<nat> {
    set i: nat | i < |rows| && Cell(rows[i], c) == Some(name)
  }

  lemma {:induction false} MatchingCounts(rows: seq<Row>, c: string, name: string)
    ensures Matching(rows, c, name) == |RowsNamed(rows, c, name)|
  {
    if rows == [] {
      assert RowsNamed(rows, c, name) == {};
    } else {
      MatchingCounts(rows[1..], c, name);
      ShiftedCount(RowsNamed(rows[1..], c, name));
      RowsBehind(rows, c, name);
    }
  }

  lemma RowsBehind(rows: seq<Row>, c: string, name: string)
    requires rows != []
    ensures RowsNamed(rows, c, name) - {0} == Shifted(RowsNamed(rows[1..], c, name))
  {
    forall i: nat | i in RowsNamed(rows, c, name) && i != 0 ensures i in Shifted(RowsNamed(rows[1..], c, name)) {
      assert i - 1 in RowsNamed(rows[1..], c, name);
    }
  }

  lemma {:induction false} MatchingIsSome(rows: seq<Row>, c: string, name: string)
    ensures Matching(rows, c, name) > 0 <==> exists i :: 0 <= i < |rows| && Cell(rows[i], c) == Some(name)
  {
    if rows != [] {
      MatchingIsSome(rows[1..], c, name);
      if exists i :: 0 <= i < |rows| && Cell(rows[i], c) == Some(name) {
        var i :| 0 <= i < |rows| && Cell(rows[i], c) == Some(name);
        if i > 0 { assert rows[1..][i - 1] == rows[i]; }
      }
      if exists i :: 0 <= i < |rows[1..]| && Cell(rows[1..][i], c) == Some(name) {
        var i :| 0 <= i < |rows[1..]| && Cell(rows[1..][i], c) == Some(name);
        assert rows[i + 1] == rows[1..][i];
      }
    }
  }

  /** A column's count does not depend on what was renamed in the other columns. */
  lemma {:induction false} OtherColumnsKeepCount(rows: seq<Row>, columns: set<string>, from: string, to: string,
                                                 c: string)
    requires c !in columns
    ensures Matching(RowsAfter(rows, columns, from, to), c, from) == Matching(rows, c, from)
  {
    if rows != [] {
      OtherColumnsKeepCount(rows[1..], columns, from, to, c);
      assert RowsAfter(rows, columns, from, to)[1..] == RowsAfter(rows[1..], columns, from, to);
    }
  }

  /** `After` the first references, then the next column, is `After` one reference more. */
  lemma OneMoreColumn(db: Database, refs: seq<Reference>, r: Reference, from: string, to: string)
    requires from != to && r.0 in db
    ensures var before := After(db, refs, from, to);
      After(db, refs + [r], from, to)
        == before[r.0 := before[r.0].(rows := RowsAfter(before[r.0].rows, {r.1}, from, to))]
  {
    var before := After(db, refs, from, to);
    var after := After(db, refs + [r], from, to);
    assert ColumnsOf(refs + [r], r.0) == ColumnsOf(refs, r.0) + {r.1} by {
      assert r in refs + [r];
      forall c | c in ColumnsOf(refs, r.0) ensures c in ColumnsOf(refs + [r], r.0) {
        var q :| q in refs && q.0 == r.0 && q.1 == c;
        assert q in refs + [r];
      }
    }
    RowsTwice(db[r.0].rows, ColumnsOf(refs, r.0), {r.1}, from, to);
    forall t | t in db && t != r.0 ensures after[t] == before[t] {
      SameColumns(refs, r, t);
    }
  }

  lemma SameColumns(refs: seq<Reference>, r: Reference, t: string)
    requires t != r.0
    ensures ColumnsOf(refs + [r], t) == ColumnsOf(refs, t)
  {
    forall c | c in ColumnsOf(refs, t) ensures c in ColumnsOf(refs + [r], t) {
      var q :| q in refs && q.0 == t && q.1 == c;
      assert q in refs + [r];
    }
  }

  /** A column that holds no old name may be skipped. */
  lemma SkippedColumn(db: Database, refs: seq<Reference>, r: Reference, from: string, to: string)
    requires !Holds(db, r, from)
    requires r.0 in db ==> db[r.0].Shaped()
    ensures After(db, refs + [r], from, to) == After(db, refs, from, to)
  {
    var before := After(db, refs, from, to);
    var after := After(db, refs + [r], from, to);
    forall t | t in db ensures after[t].rows == before[t].rows {
      if t != r.0 {
        SameColumns(refs, r, t);
      } else {
        assert forall c :: c in ColumnsOf(refs, t) ==> c in ColumnsOf(refs + [r], t) by {
          forall c | c in ColumnsOf(refs, t) ensures c in ColumnsOf(refs + [r], t) {
            var q :| q in refs && q.0 == t && q.1 == c;
            assert q in refs + [r];
          }
        }
        forall i | 0 <= i < |db[t].rows| ensures after[t].rows[i] == before[t].rows[i] {
          assert db[t].rows[i].Keys == db[t].columns;
        }
      }
    }
  }

  // ----- The program -----

  class Handle {
    var tables: Database

    constructor (tables: Database)
      ensures this.tables == tables
    {
      this.tables := tables;
    }

    /** `UPDATE t SET c = to WHERE c = from`: None when a unique key would break. */
    method Update(r: Reference, from: string, to: string) returns (changes: Option<nat>)
      requires r.0 in tables
      modifies this
      ensures var t := old(tables)[r.0];
        var rows := RowsAfter(t.rows, {r.1}, from, to);
        if forall key :: key in t.keys ==> UniqueOn(rows, key)
        then tables == old(tables)[r.0 := t.(rows := rows)] && changes == Some(Matching(t.rows, r.1, from))
        else tables == old(tables) && changes == None
    {
      var t := tables[r.0];
      var rows := RowsAfter(t.rows, {r.1}, from, to);
      if exists key :: key in t.keys && !UniqueOn(rows, key) {
        return None;
      }
      tables := tables[r.0 := t.(rows := rows)];
      return Some(Matching(t.rows, r.1, from));
    }
  }

  /** `r` is the first listed column that holds both names. */
  ghost predicate IsFirstClash(db: Database, refs: seq<Reference>, r: Reference, from: string, to: string) {
    exists k :: 0 <= k < |refs| && refs[k] == r && Clashes(db, r, from, to) && ClashFree(db, refs[..k], from, to)
  }

  /** The clash check over one database: the first column that holds both names, and the columns already moved. */
  method Inspect(h: Handle, refs: seq<Reference>, from: string, to: string)
    returns (clash: Option<Reference>, alreadyMoved: set<Reference>)
    ensures clash.None? <==> ClashFree(h.tables, refs, from, to)
    ensures clash.Some? ==> IsFirstClash(h.tables, refs, clash.value, from, to)
    ensures forall r :: r in alreadyMoved ==> r in refs && !Holds(h.tables, r, from)
    ensures clash.None? ==> forall r :: r in refs && Holds(h.tables, r, to) ==> r in alreadyMoved
  {
    alreadyMoved := {};
    for k := 0 to |refs|
      invariant ClashFree(h.tables, refs[..k], from, to)
      invariant forall r :: r in alreadyMoved ==> r in refs && !Holds(h.tables, r, from)
      invariant forall r :: r in refs[..k] && Holds(h.tables, r, to) ==> r in alreadyMoved
    {
      var r := refs[k];
      assert refs[..k + 1] == refs[..k] + [r];
      if Holds(h.tables, r, to) {
        if Holds(h.tables, r, from) {
          assert r in refs && Clashes(h.tables, r, from, to);
          return Some(r), alreadyMoved;
        }
        alreadyMoved := alreadyMoved + {r};
      }
    }
    assert refs[..|refs|] == refs;
    return None, alreadyMoved;
  }

  /** What `moved` reports for the references handled so far. */
  ghost predicate Reports(moved: map<Reference, nat>, db: Database, refs: seq<Reference>, from: string) {
    && (forall r :: r in moved <==> r in refs && Holds(db, r, from))
    && (forall r :: r in moved ==> moved[r] == Matching(db[r.0].rows, r.1, from))
  }

  /** A column is reported with its count exactly if it held the name. */
  ghost predicate Reported(moved: map<Reference, nat>, db: Database, r: Reference, from: string) {
    if Holds(db, r, from) then r in moved && moved[r] == Matching(db[r.0].rows, r.1, from) else r !in moved
  }

  ghost predicate NoReferenceTwice(refs: seq<Reference>) {
    forall i, j :: 0 <= i < j < |refs| ==> refs[i] != refs[j]
  }

  /** The body of one transaction: every column that is there and has not been moved is updated in turn. */
  method MoveAll(h: Handle, refs: seq<Reference>, alreadyMoved: set<Reference>, from: string, to: string)
    returns (moved: map<Reference, nat>)
    requires from != to && NoReferenceTwice(refs)
    requires Consistent(h.tables) && ClashFree(h.tables, refs, from, to)
    requires forall r :: r in alreadyMoved ==> !Holds(h.tables, r, from)
    modifies h
    ensures h.tables == After(old(h.tables), refs, from, to)
    ensures Reports(moved, old(h.tables), refs, from)
  {
    ghost var db := h.tables;
    moved := map[];
    AfterNothing(db, from, to);
    assert refs[..0] == [];
    for k := 0 to |refs|
      invariant h.tables == After(db, refs[..k], from, to)
      invariant Reports(moved, db, refs[..k], from)
    {
      var r := refs[k];
      assert refs[..k + 1] == refs[..k] + [r];
      if r !in alreadyMoved && r.0 in h.tables && r.1 in h.tables[r.0].columns {
        UpdateGoesThrough(db, refs, k, from, to);
        var changes := h.Update(r, from, to);
        ReportsOn(moved, db, refs, k, from);
        if changes.value > 0 {
          moved := moved[r := changes.value];
        }
      } else {
        SkippedColumn(db, refs[..k], r, from, to);
      }
    }
    assert refs[..|refs|] == refs;
  }

  /** One more column: on the report, with its count, if the count is not zero. */
  lemma ReportsOn(moved: map<Reference, nat>, db: Database, refs: seq<Reference>, k: nat, from: string)
    requires k < |refs| && refs[k].0 in db && refs[k].1 in db[refs[k].0].columns && NoReferenceTwice(refs)
    requires Reports(moved, db, refs[..k], from)
    ensures var r, n := refs[k], Matching(db[refs[k].0].rows, refs[k].1, from);
      Reports(if n > 0 then moved[r := n] else moved, db, refs[..k + 1], from)
  {
    assert refs[..k + 1] == refs[..k] + [refs[k]];
    MatchingIsSome(db[refs[k].0].rows, refs[k].1, from);
  }

  lemma AfterNothing(db: Database, from: string, to: string)
    ensures After(db, [], from, to) == db
  {
    forall t | t in db ensures After(db, [], from, to)[t] == db[t] {
      assert ColumnsOf([], t) == {};
      forall i | 0 <= i < |db[t].rows| ensures RowsAfter(db[t].rows, {}, from, to)[i] == db[t].rows[i] {
        assert RowAfter(db[t].rows[i], {}, from, to) == db[t].rows[i];
      }
    }
  }

  /** The clash check is enough: no statement of the rename can break a unique key. */
  lemma UpdateGoesThrough(db: Database, refs: seq<Reference>, k: nat, from: string, to: string)
    requires from != to && k < |refs| && refs[k].0 in db && NoReferenceTwice(refs)
    requires Consistent(db) && ClashFree(db, refs, from, to)
    ensures var r := refs[k];
      var t := After(db, refs[..k], from, to)[r.0];
      && (forall key :: key in t.keys ==> UniqueOn(RowsAfter(t.rows, {r.1}, from, to), key))
      && After(db, refs[..k + 1], from, to)
           == After(db, refs[..k], from, to)[r.0 := t.(rows := RowsAfter(t.rows, {r.1}, from, to))]
      && Matching(t.rows, r.1, from) == Matching(db[r.0].rows, r.1, from)
  {
    var r := refs[k];
    assert refs[..k + 1] == refs[..k] + [r];
    OneMoreColumn(db, refs[..k], r, from, to);
    assert forall q :: q in refs[..k + 1] ==> q in refs;
    RenameKeepsConsistency(db, refs[..k + 1], from, to);
    assert After(db, refs[..k + 1], from, to)[r.0].keys == db[r.0].keys;
    assert r.1 !in ColumnsOf(refs[..k], r.0);
    OtherColumnsKeepCount(db[r.0].rows, ColumnsOf(refs[..k], r.0), from, to, r.1);
  }

  lemma ReferencesAreDistinct()
    ensures NoReferenceTwice(MESH_REFERENCES) && NoReferenceTwice(LOCAL_REFERENCES)
    ensures forall r :: r in MESH_REFERENCES ==> r !in LOCAL_REFERENCES
  {
    assert "subject" != "owner" && "owner" != "identity";
    var mesh := ["role_grants", "agent_owners", "agent_group_members", "agents", "agent_keys", "pairing_codes"];
    var local := ["agent_registry", "policies", "push_subscriptions", "users", "local_users"];
    assert forall i :: 0 <= i < |MESH_REFERENCES| ==> MESH_REFERENCES[i].0 in mesh;
    assert forall i :: 0 <= i < |LOCAL_REFERENCES| ==> LOCAL_REFERENCES[i].0 in local;
    TablesAreApart();
  }

  lemma TablesAreApart()
    ensures forall t :: t in ["role_grants", "agent_owners", "agent_group_members", "agents", "agent_keys",
                              "pairing_codes"] ==>
      t !in ["agent_registry", "policies", "push_subscriptions", "users", "local_users"]
  {
    assert "agents"[5] != "agent_"[5];
  }

  /** Whether the checks let the rename go ahead. */
  ghost predicate Admissible(mesh: Database, local: Database, from: string, to: string) {
    && Holds(local, ("local_users", "username"), from)
    && ClashFree(mesh, MESH_REFERENCES, from, to) && ClashFree(local, LOCAL_REFERENCES, from, to)
  }

  /** Why the checks refuse, the mesh looked at first. */
  ghost predicate IsRefusal(mesh: Database, local: Database, from: string, to: string, reason: Reason) {
    match reason
    case NoSuchAccount => !Holds(local, ("local_users", "username"), from)
    case NameTaken(r) =>
      && Holds(local, ("local_users", "username"), from)
      && (if ClashFree(mesh, MESH_REFERENCES, from, to) then IsFirstClash(local, LOCAL_REFERENCES, r, from, to)
          else IsFirstClash(mesh, MESH_REFERENCES, r, from, to))
    case WriteFailed => false
  }

  /** Everything up to the first transaction: a refusal, or the columns already moved. */
  method Check(mesh: Handle, local: Handle, from: string, to: string)
    returns (refusal: Option<Reason>, meshMoved: set<Reference>, localMoved: set<Reference>)
    ensures refusal.None? <==> Admissible(mesh.tables, local.tables, from, to)
    ensures refusal.Some? ==> IsRefusal(mesh.tables, local.tables, from, to, refusal.value)
    ensures forall r :: r in meshMoved ==> !Holds(mesh.tables, r, from)
    ensures forall r :: r in localMoved ==> !Holds(local.tables, r, from)
  {
    refusal, meshMoved, localMoved := None, {}, {};
    if !Holds(local.tables, ("local_users", "username"), from) {
      refusal := Some(NoSuchAccount);
    } else {
      var clash;
      clash, meshMoved := Inspect(mesh, MESH_REFERENCES, from, to);
      if clash.None? {
        clash, localMoved := Inspect(local, LOCAL_REFERENCES, from, to);
      }
      if clash.Some? {
        refusal := Some(NameTaken(clash.value));
      }
    }
  }

  lemma AdmissibleNamesDiffer(mesh: Database, local: Database, from: string, to: string)
    requires Admissible(mesh, local, from, to)
    ensures from != to
  {
    assert LOCAL_REFERENCES[4] == ("local_users", "username");
    assert !Clashes(local, LOCAL_REFERENCES[4], from, to);
  }

  /** The counts of both databases, which share no column. */
  ghost predicate ReportsBoth(moved: map<Reference, nat>, mesh: Database, local: Database, from: string) {
    && (forall r :: r in MESH_REFERENCES ==> Reported(moved, mesh, r, from))
    && (forall r :: r in LOCAL_REFERENCES ==> Reported(moved, local, r, from))
    && (forall r :: r in moved ==> r in MESH_REFERENCES || r in LOCAL_REFERENCES)
  }

  lemma CountsJoin(moved: map<Reference, nat>, more: map<Reference, nat>, mesh: Database, local: Database, from: string)
    requires Reports(moved, mesh, MESH_REFERENCES, from) && Reports(more, local, LOCAL_REFERENCES, from)
    ensures ReportsBoth(moved + more, mesh, local, from)
  {
    ReferencesAreDistinct();
    ReportsJoin(moved, more, mesh, local, MESH_REFERENCES, LOCAL_REFERENCES, from);
  }

  lemma ReportsJoin(moved: map<Reference, nat>, more: map<Reference, nat>, mesh: Database, local: Database,
                    a: seq<Reference>, b: seq<Reference>, from: string)
    requires Reports(moved, mesh, a, from) && Reports(more, local, b, from) && forall r :: r in a ==> r !in b
    ensures forall r :: r in a ==> Reported(moved + more, mesh, r, from)
    ensures forall r :: r in b ==> Reported(moved + more, local, r, from)
    ensures forall r :: r in moved + more ==> r in a || r in b
  {
  }

  /**
   * `renameLocalAccount`. None is a process that died between the two commits. The rename goes
   * through exactly when the account exists and no listed column holds both names, barring a
   * fault; every refusal and every fault of the first half leaves both databases untouched, and
   * each half is all or nothing.
   */
  method RenameLocalAccount(mesh: Handle, local: Handle, from: string, to: string, fault: Fault)
    returns (outcome: Option<Outcome>)
    requires mesh != local && Consistent(mesh.tables) && Consistent(local.tables)
    modifies mesh, local
    ensures var admitted := Admissible(old(mesh.tables), old(local.tables), from, to);
      && mesh.tables == (if admitted && !fault.MeshThrows? then After(old(mesh.tables), MESH_REFERENCES, from, to)
                         else old(mesh.tables))
      && local.tables == (if admitted && fault.NoFault? then After(old(local.tables), LOCAL_REFERENCES, from, to)
                          else old(local.tables))
      && (outcome.Some? && outcome.value.Renamed? <==> admitted && fault.NoFault?)
      && (outcome.None? <==> admitted && fault.DiesBetween?)
      && (outcome == Some(Refused(WriteFailed)) <==> admitted && (fault.MeshThrows? || fault.LocalThrows?))
    ensures outcome.Some? && outcome.value.Renamed? ==>
      ReportsBoth(outcome.value.moved, old(mesh.tables), old(local.tables), from)
    ensures outcome.Some? && outcome.value.Refused? && !outcome.value.reason.WriteFailed? ==>
      IsRefusal(old(mesh.tables), old(local.tables), from, to, outcome.value.reason)
    ensures outcome == Some(Refused(NoSuchAccount)) <==> !Holds(old(local.tables), ("local_users", "username"), from)
    ensures outcome.Some? && outcome.value.Refused? && outcome.value.reason.NameTaken? <==>
      Holds(old(local.tables), ("local_users", "username"), from)
      && !(ClashFree(old(mesh.tables), MESH_REFERENCES, from, to)
           && ClashFree(old(local.tables), LOCAL_REFERENCES, from, to))
  {
    ghost var meshBefore, localBefore := mesh.tables, local.tables;
    var refusal, meshMoved, localMoved := Check(mesh, local, from, to);
    if refusal.Some? {
      return Some(Refused(refusal.value));
    }
    AdmissibleNamesDiffer(mesh.tables, local.tables, from, to);
    if fault.MeshThrows? {
      return Some(Refused(WriteFailed));
    }
    ReferencesAreDistinct();
    var moved := MoveAll(mesh, MESH_REFERENCES, meshMoved, from, to);
    if fault.DiesBetween? {
      return None;
    }
    if fault.LocalThrows? {
      return Some(Refused(WriteFailed));
    }
    var more := MoveAll(local, LOCAL_REFERENCES, localMoved, from, to);
    CountsJoin(moved, more, meshBefore, localBefore, from);
    return Some(Renamed(moved + more));
  }

  /**
   * A rename stopped between its commits and run again ends where an uninterrupted one ends, and
   * the second run is not taken for a clash.
   */
  lemma RerunFinishesTheRename(mesh: Database, local: Database, from: string, to: string)
    requires Admissible(mesh, local, from, to)
    ensures var half := After(mesh, MESH_REFERENCES, from, to);
      && Admissible(half, local, from, to)
      && After(half, MESH_REFERENCES, from, to) == After(mesh, MESH_REFERENCES, from, to)
  {
    assert LOCAL_REFERENCES[4] == ("local_users", "username");
    assert !Clashes(local, LOCAL_REFERENCES[4], from, to);
    RenameIsIdempotent(mesh, MESH_REFERENCES, from, to);
  }

  // ----- A clash that passes for a resumption -----

  /** Every row the column has under the new name after the rename, it had under the old name before. */
  ghost predicate OnlyOwnRows(db: Database, refs: seq<Reference>, r: Reference, from: string, to: string)
    requires r.0 in db
  {
    forall i :: 0 <= i < |db[r.0].rows| && Cell(After(db, refs, from, to)[r.0].rows[i], r.1) == Some(to) ==>
      Cell(db[r.0].rows[i], r.1) == Some(from)
  }

  /** A renamed account ends up with its own rows alone exactly where the new name was free. */
  lemma OnlyOwnRowsIffFree(db: Database, refs: seq<Reference>, r: Reference, from: string, to: string)
    requires from != to && r in refs && r.0 in db && r.1 in db[r.0].columns
    ensures OnlyOwnRows(db, refs, r, from, to) <==> !Holds(db, r, to)
  {
    var rows, after := db[r.0].rows, After(db, refs, from, to)[r.0].rows;
    assert r.1 in ColumnsOf(refs, r.0);
    forall i | 0 <= i < |rows|
      ensures Cell(after[i], r.1) == if Cell(rows[i], r.1) == Some(from) then Some(to) else Cell(rows[i], r.1)
    {
      assert after[i] == RowAfter(rows[i], ColumnsOf(refs, r.0), from, to);
    }
    if Holds(db, r, to) {
      var i :| 0 <= i < |rows| && Cell(rows[i], r.1) == Some(to);
      assert Cell(after[i], r.1) == Some(to);
    }
  }

  function OneGrant(subject: string): Database {
    map["role_grants" := Table({"subject"}, {{"subject"}}, [map["subject" := subject]])]
  }

  function OneAccount(username: string): Database {
    map["local_users" := Table({"username"}, {{"username"}}, [map["username" := username]])]
  }

  lemma GrantsOf(subject: string, name: string)
    ensures Holds(OneGrant(subject), ("role_grants", "subject"), name) <==> subject == name
    ensures forall r :: Holds(OneGrant(subject), r, name) ==> r == ("role_grants", "subject")
  {
    assert Cell(OneGrant(subject)["role_grants"].rows[0], "subject") == Some(subject);
  }

  lemma AccountOf(username: string, name: string)
    ensures Holds(OneAccount(username), ("local_users", "username"), name) <==> username == name
    ensures forall r :: Holds(OneAccount(username), r, name) ==> r == ("local_users", "username")
  {
    assert Cell(OneAccount(username)["local_users"].rows[0], "username") == Some(username);
  }

  /**
   * A mesh that holds bob's grant and none of alice's lets alice become bob, and the grant is hers
   * from then on. It is the very mesh that a rename of alice's own grant leaves when it stops
   * between its commits, so no check of the tables could tell the two apart.
   */
  lemma StrangerPassesForResumption()
    ensures Admissible(OneGrant("bob"), OneAccount("alice"), "alice", "bob")
    ensures After(OneGrant("bob"), MESH_REFERENCES, "alice", "bob") == OneGrant("bob")
    ensures Holds(OneGrant("bob"), ("role_grants", "subject"), "bob")
    ensures !OnlyOwnRows(OneGrant("bob"), MESH_REFERENCES, ("role_grants", "subject"), "alice", "bob")
    ensures Admissible(OneGrant("alice"), OneAccount("alice"), "alice", "bob")
    ensures After(OneGrant("alice"), MESH_REFERENCES, "alice", "bob") == OneGrant("bob")
  {
    var r := ("role_grants", "subject");
    assert MESH_REFERENCES[0] == r && "alice" != "bob";
    GrantsOf("bob", "alice");
    GrantsOf("bob", "bob");
    GrantsOf("alice", "bob");
    AccountOf("alice", "alice");
    AccountOf("alice", "bob");
    OnlyOwnRowsIffFree(OneGrant("bob"), MESH_REFERENCES, r, "alice", "bob");
    GrantAfter("bob");
    GrantAfter("alice");
  }

  lemma GrantAfter(subject: string)
    ensures After(OneGrant(subject), MESH_REFERENCES, "alice", "bob")
        == OneGrant(if subject == "alice" then "bob" else subject)
  {
    var columns := ColumnsOf(MESH_REFERENCES, "role_grants");
    assert MESH_REFERENCES[0] == ("role_grants", "subject") && "subject" in columns;
    var row := map["subject" := subject];
    assert RowAfter(row, columns, "alice", "bob") == map["subject" := if subject == "alice" then "bob" else subject];
    assert RowsAfter([row], columns, "alice", "bob") == [RowAfter(row, columns, "alice", "bob")];
    var after := After(OneGrant(subject), MESH_REFERENCES, "alice", "bob");
    assert after.Keys == {"role_grants"};
  }
}
