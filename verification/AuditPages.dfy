/** packages/http/src/audit-query.ts: the audit trail, read upwards under a textual cursor. */
module AuditQuery {
  import opened Wrappers
  import opened Pagination

  datatype Event = Event(
    storedAt: string, eventType: string, identity: string, recordedByKind: string,
    recordedById: Option<string>, correlationId: Option<string>)

  /** The query string; an absent parameter is an empty one, as both are falsy. */
  datatype ListQuery = ListQuery(
    identity: string, eventType: string, recordedByKind: string, recordedByIdentity: string,
    correlationId: string, from: string, to: string, limit: Option<int>)

  datatype Result = BadRequest | Events(page: seq<Key>, nextCursor: Option<string>)

  type Table = map<string, Event>

  const DEFAULT_LIMIT := 50
  const MAX_LIMIT := 200

  function Clamp(limit: Option<int>): (n: nat)
    ensures 1 <= n <= MAX_LIMIT
  {
    var asked := if limit.Some? && limit.value != 0 then limit.value else DEFAULT_LIMIT;
    if asked < 1 then 1 else if asked > MAX_LIMIT then MAX_LIMIT else asked
  }

  predicate Equals(filter: string, value: Option<string>) { filter == "" || value == Some(filter) }

  predicate Matches(q: ListQuery, e: Event) {
    && Equals(q.identity, Some(e.identity)) && Equals(q.eventType, Some(e.eventType))
    && Equals(q.recordedByKind, Some(e.recordedByKind)) && Equals(q.recordedByIdentity, e.recordedById)
    && Equals(q.correlationId, e.correlationId)
    && (q.from == "" || !Less(e.storedAt, q.from)) && (q.to == "" || !Less(q.to, e.storedAt))
  }

  /** The ordering keys of the rows a query selects. */
  function Selected(t: Table, q: ListQuery): set<Key> {
    set id | id in t && Matches(q, t[id]) :: Key(t[id].storedAt, id)
  }

  // ----- The cursor -----

  function FormatCursor(k: Key): string { k.ts + ("|" + k.id) }

  /** `indexOf('|')`, the length standing for not found. */
  function FirstBar(s: string): (n: nat)
    ensures n <= |s| && '|' !in s[..n] && (n < |s| ==> s[n] == '|')
  {
    if s == "" || s[0] == '|' then 0
    else
      assert s[..1 + FirstBar(s[1..])] == [s[0]] + s[1..][..FirstBar(s[1..])];
      1 + FirstBar(s[1..])
  }

  function ParseCursor(cursor: string): Option<Key> {
    var at := FirstBar(cursor);
    if at == 0 || at == |cursor| then None else Some(Key(cursor[..at], cursor[at + 1..]))
  }

  /** A cursor is read back as the key it was made of exactly when the timestamp is not empty and holds no bar. */
  lemma CursorRoundTrip(k: Key)
    ensures ParseCursor(FormatCursor(k)) == Some(k) <==> k.ts != "" && '|' !in k.ts
  {
    var s := FormatCursor(k);
    var at := FirstBar(s);
    assert s[|k.ts|] == '|' && s[..|k.ts|] == k.ts && s[|k.ts| + 1..] == k.id;
    assert forall n :: |k.ts| < n <= |s| ==> s[..n][|k.ts|] == '|';
    assert at <= |k.ts| && s[..at] == k.ts[..at];
    assert at < |k.ts| ==> k.ts[at] == '|';
  }

  // ----- One request -----

  ghost function ListEvents(t: Table, q: ListQuery, cursor: string): Result {
    var after := ParseCursor(cursor);
    if cursor != "" && after.None? then BadRequest
    else
      var from := if cursor == "" then None else after;
      var rows := Rows(Ascending, Selected(t, q), from, Clamp(q.limit));
      var page := rows[..MinNat(Clamp(q.limit), |rows|)];
      Events(page, if |rows| > Clamp(q.limit) && page != [] then Some(FormatCursor(page[|page| - 1])) else None)
  }

  // ----- What an answer holds, filter by filter -----

  /** Nothing asked, or nought, is fifty; any other size is kept within one and two hundred. */
  lemma SizeIs(limit: Option<int>)
    ensures limit == None || limit == Some(0) ==> Clamp(limit) == 50
    ensures limit.Some? && limit.value < 0 ==> Clamp(limit) == 1
    ensures limit.Some? && 1 <= limit.value <= 200 ==> Clamp(limit) == limit.value
    ensures limit.Some? && limit.value > 200 ==> Clamp(limit) == 200
  {
  }

  /** The event is on record, meets each filter given, and comes after the cursor's key. */
  ghost predicate IsAskedFor(t: Table, q: ListQuery, from: Option<Key>, id: string) {
    && id in t
    && (q.identity != "" ==> t[id].identity == q.identity)
    && (q.eventType != "" ==> t[id].eventType == q.eventType)
    && (q.recordedByKind != "" ==> t[id].recordedByKind == q.recordedByKind)
    && (q.recordedByIdentity != "" ==> t[id].recordedById == Some(q.recordedByIdentity))
    && (q.correlationId != "" ==> t[id].correlationId == Some(q.correlationId))
    && (q.from != "" ==> q.from == t[id].storedAt || Less(q.from, t[id].storedAt))
    && (q.to != "" ==> q.to == t[id].storedAt || Less(t[id].storedAt, q.to))
    && (from.Some? ==> Less(from.value.ts, t[id].storedAt)
                       || (from.value.ts == t[id].storedAt && Less(from.value.id, id)))
  }

  lemma AskedForIsSelected(t: Table, q: ListQuery, from: Option<Key>, id: string)
    ensures IsAskedFor(t, q, from, id) <==>
            id in t && Key(t[id].storedAt, id) in Beyond(Ascending, Selected(t, q), from)
  {
    if id in t {
      LessIsTotal(t[id].storedAt, q.from);
      LessIsTotal(t[id].storedAt, q.to);
    }
  }

  /**
   * The answer to a request holds only events asked for, each under its own timestamp; as many as were
   * asked for, or all there are; and one that is left out comes after all that are in.
   */
  lemma AnswerIsAskedFor(t: Table, q: ListQuery, cursor: string, from: Option<Key>, id: string, k: Key)
    requires if from.Some? then cursor != "" && ParseCursor(cursor) == from else cursor == ""
    ensures var r := ListEvents(t, q, cursor);
      && r.Events? && |r.page| <= Clamp(q.limit)
      && (k in r.page ==> IsAskedFor(t, q, from, k.id) && k.ts == t[k.id].storedAt)
      && (IsAskedFor(t, q, from, id) && Key(t[id].storedAt, id) !in r.page ==>
            r.nextCursor.Some? && |r.page| == Clamp(q.limit)
            && (k in r.page ==> Less(k.ts, t[id].storedAt) || (k.ts == t[id].storedAt && Less(k.id, id))))
  {
    PageIsExact(Ascending, Selected(t, q), from, Clamp(q.limit));
    AskedForIsSelected(t, q, from, id);
    AskedForIsSelected(t, q, from, k.id);
    assert ListEvents(t, q, cursor).page == PageOf(Ascending, Selected(t, q), from, Clamp(q.limit));
  }

  /** Refused exactly for a cursor without a bar, or with nothing before it. */
  lemma RefusedIff(t: Table, q: ListQuery, cursor: string)
    ensures ListEvents(t, q, cursor) == BadRequest <==> cursor != "" && ('|' !in cursor || cursor[0] == '|')
  {
    var at := FirstBar(cursor);
    assert at == |cursor| ==> cursor[..at] == cursor;
    if '|' in cursor && cursor[0] != '|' { assert at < |cursor|; }
  }

  // ----- Following `next_cursor` -----

  ghost predicate Grows(tables: seq<Table>) {
    forall i, j, id :: 0 <= i <= j < |tables| && id in tables[i] ==> id in tables[j] && tables[j][id] == tables[i][id]
  }

  /** Timestamps as SQLite writes them. */
  predicate CleanTimestamp(ts: string) { ts != "" && '|' !in ts }

  ghost predicate Clean(t: Table) { forall id :: id in t ==> CleanTimestamp(t[id].storedAt) }

  /** What a reader collects who sends back each `next_cursor`, and whether the last answer had none. */
  ghost function Follow(tables: seq<Table>, q: ListQuery, cursor: string): (seq<Key>, bool)
    decreases |tables|
  {
    if tables == [] then ([], false)
    else
      match ListEvents(tables[0], q, cursor)
      case BadRequest => ([], false)
      case Events(page, None) => (page, true)
      case Events(page, Some(next)) => var (rest, done) := Follow(tables[1..], q, next); (page + rest, done)
  }

  ghost function Keys(tables: seq<Table>, q: ListQuery): seq<set<Key>> {
    seq(|tables|, i requires 0 <= i < |tables| => Selected(tables[i], q))
  }

  /** One answer: the rows are the page beyond the cursor's key, and the next cursor stands for the last of them. */
  lemma AnswerIsPage(t: Table, q: ListQuery, cursor: string, from: Option<Key>)
    requires Clean(t)
    requires if from.Some? then cursor != "" && ParseCursor(cursor) == from else cursor == ""
    ensures var r := ListEvents(t, q, cursor);
      var page := PageOf(Ascending, Selected(t, q), from, Clamp(q.limit));
      && r.Events? && r.page == page
      && (r.nextCursor.Some? <==> More(Ascending, Selected(t, q), from, Clamp(q.limit)))
      && (r.nextCursor.Some? ==> (
            page != [] && r.nextCursor.value != "" && ParseCursor(r.nextCursor.value) == Some(page[|page| - 1])))
  {
    PageIsExact(Ascending, Selected(t, q), from, Clamp(q.limit));
    var page := PageOf(Ascending, Selected(t, q), from, Clamp(q.limit));
    if page != [] {
      var last := page[|page| - 1];
      assert last in page && last in Selected(t, q);
      assert CleanTimestamp(t[last.id].storedAt);
      CursorRoundTrip(last);
    }
  }

  /** One step of the reader: the page, whether it goes on, and the cursor it goes on with. */
  lemma FollowStep(tables: seq<Table>, q: ListQuery, cursor: string, from: Option<Key>)
    returns (page: seq<Key>, more: bool, next: string)
    requires tables != [] && Clean(tables[0])
    requires if from.Some? then cursor != "" && ParseCursor(cursor) == from else cursor == ""
    ensures page == PageOf(Ascending, Selected(tables[0], q), from, Clamp(q.limit))
    ensures more <==> More(Ascending, Selected(tables[0], q), from, Clamp(q.limit))
    ensures more ==> page != [] && next != "" && ParseCursor(next) == Some(page[|page| - 1])
    ensures Follow(tables, q, cursor).0 == page + if more then Follow(tables[1..], q, next).0 else []
    ensures Follow(tables, q, cursor).1 <==> (more ==> Follow(tables[1..], q, next).1)
  {
    AnswerIsPage(tables[0], q, cursor, from);
    var answer := ListEvents(tables[0], q, cursor);
    page, more := answer.page, answer.nextCursor.Some?;
    next := if more then answer.nextCursor.value else "";
    assert page + [] == page;
  }

  lemma {:induction false} FollowIsWalk(tables: seq<Table>, q: ListQuery, cursor: string, from: Option<Key>)
    requires forall i :: 0 <= i < |tables| ==> Clean(tables[i])
    requires if from.Some? then cursor != "" && ParseCursor(cursor) == from else cursor == ""
    ensures Follow(tables, q, cursor)
         == (Walk(Ascending, Keys(tables, q), from, Clamp(q.limit)),
             Completes(Ascending, Keys(tables, q), from, Clamp(q.limit)))
    decreases |tables|
  {
    if tables != [] {
      var ks := Keys(tables, q);
      assert ks[0] == Selected(tables[0], q) && ks[1..] == Keys(tables[1..], q);
      var page, more, next := FollowStep(tables, q, cursor, from);
      WalkStep(Ascending, ks, from, Clamp(q.limit));
      if more {
        FollowIsWalk(tables[1..], q, next, Some(page[|page| - 1]));
      } else {
        assert page + [] == page;
      }
    }
  }

  /**
   * Every event that matched when the reader began is read exactly once and in order, for any
   * page size and any number of events in the same millisecond, while new events arrive.
   */
  lemma TrailIsReadOnce(tables: seq<Table>, q: ListQuery, id: string)
    requires Grows(tables) && forall i :: 0 <= i < |tables| ==> Clean(tables[i])
    requires Follow(tables, q, "").1 && id in tables[0] && Matches(q, tables[0][id])
    ensures InOrder(Ascending, Follow(tables, q, "").0)
    ensures multiset(Follow(tables, q, "").0)[Key(tables[0][id].storedAt, id)] == 1
  {
    FollowIsWalk(tables, q, "", None);
    KeysGrow(tables, q);
    WalkVisitsEverythingOnce(Ascending, Keys(tables, q), Clamp(q.limit), Key(tables[0][id].storedAt, id));
  }

  lemma KeysGrow(tables: seq<Table>, q: ListQuery)
    requires Grows(tables)
    ensures Pagination.Grows(Keys(tables, q))
  {
    var ks := Keys(tables, q);
    forall i, j | 0 <= i <= j < |ks| ensures ks[i] <= ks[j] {
      forall k: Key | k in ks[i] ensures k in ks[j] { assert k.id in tables[j]; }
    }
  }

  /** The reader is done once the pages it asked for could hold everything the table ever held. */
  lemma TrailEnds(tables: seq<Table>, q: ListQuery)
    requires tables != [] && Grows(tables) && forall i :: 0 <= i < |tables| ==> Clean(tables[i])
    requires |tables| * Clamp(q.limit) > |Selected(tables[|tables| - 1], q)|
    ensures Follow(tables, q, "").1
  {
    FollowIsWalk(tables, q, "", None);
    KeysGrow(tables, q);
    var ks := Keys(tables, q);
    var all := Selected(tables[|tables| - 1], q);
    assert ks[|ks| - 1] == all;
    assert Beyond(Ascending, all, None) == all;
    WalkTerminates(Ascending, ks, all, None, Clamp(q.limit));
  }
}

/** packages/http/src/chat-audits.ts: the message list, read downwards from the id of the last message seen. */
module ChatAudits {
  import opened Wrappers
  import opened Pagination
  import Like

  datatype Message = Message(fromAgent: string, toAgent: string, content: string, ts: string)

  /** An absent parameter is an empty one: neither is a filter. */
  datatype Query = Query(fromAgent: string, toAgent: string, search: string, limit: Option<int>)

  datatype Result = Result(messages: seq<Key>, hasMore: bool, oldestId: Option<string>)

  type Table = map<string, Message>

  const DEFAULT_LIMIT := 100
  const MAX_LIMIT := 200

  function PageLimit(limit: Option<int>): (n: nat)
    ensures 1 <= n <= MAX_LIMIT
  {
    if limit.None? || limit.value <= 0 then DEFAULT_LIMIT
    else if limit.value > MAX_LIMIT then MAX_LIMIT else limit.value
  }

  predicate Matches(q: Query, m: Message) {
    && (q.fromAgent == "" || m.fromAgent == q.fromAgent)
    && (q.toAgent == "" || m.toAgent == q.toAgent)
    && (q.search == "" || Like.Like(Like.LikeContains(q.search), m.content))
  }

  function Selected(t: Table, q: Query): set<Key> {
    set id | id in t && Matches(q, t[id]) :: Key(t[id].ts, id)
  }

  /** The cursor is anchored on the stored timestamp; an id nobody has seen is no cursor. */
  function Anchor(t: Table, beforeId: string): Option<Key> {
    if beforeId != "" && beforeId in t then Some(Key(t[beforeId].ts, beforeId)) else None
  }

  ghost function ListChatAudits(t: Table, q: Query, beforeId: string): Result {
    var limit := PageLimit(q.limit);
    var rows := Rows(Descending, Selected(t, q), Anchor(t, beforeId), limit);
    var hasMore := |rows| > limit;
    var messages := if hasMore then rows[..limit] else rows;
    Result(messages, hasMore, if messages != [] then Some(messages[|messages| - 1].id) else None)
  }

  /** What one page is: the newest matching messages older than the anchor, and the two flags exact. */
  lemma PageIsWhatItSays(t: Table, q: Query, beforeId: string, k: Key)
    ensures var r := ListChatAudits(t, q, beforeId);
      var older := Beyond(Descending, Selected(t, q), Anchor(t, beforeId));
      && r.messages == PageOf(Descending, Selected(t, q), Anchor(t, beforeId), PageLimit(q.limit))
      && (r.hasMore <==> |older| > |r.messages|)
      && (r.oldestId.None? <==> older == {})
      && (k in older && k !in r.messages ==> r.hasMore && KeyLess(k, r.messages[|r.messages| - 1]))
  {
    PageIsExact(Descending, Selected(t, q), Anchor(t, beforeId), PageLimit(q.limit));
    var older := Beyond(Descending, Selected(t, q), Anchor(t, beforeId));
    var r := ListChatAudits(t, q, beforeId);
    if older == {} { assert |older| == 0; }
    if older != {} && |older| == 0 { assert false; }
    if k in older { assert |older| > 0; }
  }

  // ----- What a page holds, filter by filter -----

  /** A size that is missing or not positive is a hundred; no page is larger than two hundred. */
  lemma SizeIs(limit: Option<int>)
    ensures limit == None || limit.value <= 0 ==> PageLimit(limit) == 100
    ensures limit.Some? && 1 <= limit.value <= 200 ==> PageLimit(limit) == limit.value
    ensures limit.Some? && limit.value > 200 ==> PageLimit(limit) == 200
  {
  }

  /** The message is there, meets each filter given, and is older than the one the page is to follow. */
  ghost predicate IsAskedFor(t: Table, q: Query, beforeId: string, id: string) {
    && id in t
    && (q.fromAgent != "" ==> t[id].fromAgent == q.fromAgent)
    && (q.toAgent != "" ==> t[id].toAgent == q.toAgent)
    && (q.search != "" ==> Like.ContainsFold(t[id].content, q.search))
    && (beforeId != "" && beforeId in t ==>
          Less(t[id].ts, t[beforeId].ts) || (t[id].ts == t[beforeId].ts && Less(id, beforeId)))
  }

  lemma AskedForIsSelected(t: Table, q: Query, beforeId: string, id: string)
    ensures IsAskedFor(t, q, beforeId, id) <==>
            id in t && Key(t[id].ts, id) in Beyond(Descending, Selected(t, q), Anchor(t, beforeId))
  {
    if id in t { Like.LikeContainsIsContains(q.search, t[id].content); }
  }

  /** A page holds only messages asked for; as many as it may, or all; one left out is older than all that are in. */
  lemma PageIsAskedFor(t: Table, q: Query, beforeId: string, id: string, k: Key)
    ensures var r := ListChatAudits(t, q, beforeId);
      && |r.messages| <= PageLimit(q.limit)
      && (k in r.messages ==> IsAskedFor(t, q, beforeId, k.id) && k.ts == t[k.id].ts)
      && (IsAskedFor(t, q, beforeId, id) && Key(t[id].ts, id) !in r.messages ==>
            r.hasMore && |r.messages| == PageLimit(q.limit)
            && (k in r.messages ==> Less(t[id].ts, k.ts) || (t[id].ts == k.ts && Less(id, k.id))))
  {
    PageIsExact(Descending, Selected(t, q), Anchor(t, beforeId), PageLimit(q.limit));
    AskedForIsSelected(t, q, beforeId, id);
    AskedForIsSelected(t, q, beforeId, k.id);
    assert ListChatAudits(t, q, beforeId).messages
        == PageOf(Descending, Selected(t, q), Anchor(t, beforeId), PageLimit(q.limit));
  }

  ghost predicate Grows(tables: seq<Table>) {
    forall i, j, id :: 0 <= i <= j < |tables| && id in tables[i] ==> id in tables[j] && tables[j][id] == tables[i][id]
  }

  /** What a reader collects who sends back each `oldest_id` while `has_more`. */
  ghost function Follow(tables: seq<Table>, q: Query, beforeId: string): (seq<Key>, bool)
    decreases |tables|
  {
    if tables == [] then ([], false)
    else
      var r := ListChatAudits(tables[0], q, beforeId);
      if r.hasMore && r.oldestId.Some? then
        var (rest, done) := Follow(tables[1..], q, r.oldestId.value);
        (r.messages + rest, done)
      else (r.messages, true)
  }

  ghost function Keys(tables: seq<Table>, q: Query): seq<set<Key>> {
    seq(|tables|, i requires 0 <= i < |tables| => Selected(tables[i], q))
  }

  /** One step of the reader: the page, whether it goes on, and the id it goes on with. */
  lemma FollowStep(tables: seq<Table>, q: Query, beforeId: string, from: Option<Key>)
    returns (page: seq<Key>, more: bool, next: string)
    requires tables != [] && "" !in tables[0] && Anchor(tables[0], beforeId) == from
    ensures page == PageOf(Descending, Selected(tables[0], q), from, PageLimit(q.limit))
    ensures more <==> More(Descending, Selected(tables[0], q), from, PageLimit(q.limit))
    ensures more ==> page != [] && IsAnchorOf(tables[0], next, page[|page| - 1])
    ensures Follow(tables, q, beforeId).0 == page + if more then Follow(tables[1..], q, next).0 else []
    ensures Follow(tables, q, beforeId).1 <==> (more ==> Follow(tables[1..], q, next).1)
  {
    PageIsExact(Descending, Selected(tables[0], q), from, PageLimit(q.limit));
    var answer := ListChatAudits(tables[0], q, beforeId);
    page, more := answer.messages, answer.hasMore;
    next := if more then answer.oldestId.value else "";
    assert page + [] == page;
    if more {
      assert page[|page| - 1] in page;
      assert page[|page| - 1] in Selected(tables[0], q);
    }
  }

  predicate IsAnchorOf(t: Table, id: string, k: Key) { id != "" && id in t && k == Key(t[id].ts, id) }

  lemma {:induction false} FollowIsWalk(tables: seq<Table>, q: Query, beforeId: string, from: Option<Key>)
    requires Grows(tables) && forall i :: 0 <= i < |tables| ==> "" !in tables[i]
    requires tables != [] ==> Anchor(tables[0], beforeId) == from
    ensures Follow(tables, q, beforeId)
         == (Walk(Descending, Keys(tables, q), from, PageLimit(q.limit)),
             Completes(Descending, Keys(tables, q), from, PageLimit(q.limit)))
    decreases |tables|
  {
    if tables != [] {
      var ks := Keys(tables, q);
      assert ks[0] == Selected(tables[0], q) && ks[1..] == Keys(tables[1..], q);
      var page, more, next := FollowStep(tables, q, beforeId, from);
      WalkStep(Descending, ks, from, PageLimit(q.limit));
      if more {
        AnchorStays(tables, next, page[|page| - 1]);
        FollowIsWalk(tables[1..], q, next, Some(page[|page| - 1]));
      } else {
        assert page + [] == page;
      }
    }
  }

  lemma AnchorStays(tables: seq<Table>, id: string, k: Key)
    requires Grows(tables) && tables != [] && IsAnchorOf(tables[0], id, k)
    ensures Grows(tables[1..])
    ensures tables[1..] != [] ==> Anchor(tables[1..][0], id) == Some(k)
  {
    if |tables| > 1 { assert id in tables[1] && tables[1..][0] == tables[1]; }
  }

  /**
   * Every message that matched when the reader began is read exactly once, newest first, while
   * newer messages arrive.
   */
  lemma ListIsReadOnce(tables: seq<Table>, q: Query, id: string)
    requires Grows(tables) && forall i :: 0 <= i < |tables| ==> "" !in tables[i]
    requires Follow(tables, q, "").1 && id in tables[0] && Matches(q, tables[0][id])
    ensures InOrder(Descending, Follow(tables, q, "").0)
    ensures multiset(Follow(tables, q, "").0)[Key(tables[0][id].ts, id)] == 1
  {
    FollowIsWalk(tables, q, "", None);
    KeysGrow(tables, q);
    WalkVisitsEverythingOnce(Descending, Keys(tables, q), PageLimit(q.limit), Key(tables[0][id].ts, id));
  }

  lemma KeysGrow(tables: seq<Table>, q: Query)
    requires Grows(tables)
    ensures Pagination.Grows(Keys(tables, q))
  {
    var ks := Keys(tables, q);
    forall i, j | 0 <= i <= j < |ks| ensures ks[i] <= ks[j] {
      forall k: Key | k in ks[i] ensures k in ks[j] { assert k.id in tables[j]; }
    }
  }

  /** What arrives while the list is read is no older than the end of the first page. */
  ghost predicate NewerThanPageOne(tables: seq<Table>, q: Query)
    requires tables != []
  {
    var page := ListChatAudits(tables[0], q, "").messages;
    forall i, id, k :: 0 <= i < |tables| && id in tables[i] && id !in tables[0] && k in page ==>
      !KeyLess(Key(tables[i][id].ts, id), k)
  }

  /**
   * The reader is done once the pages asked for could hold what matched when the list was opened,
   * however many newer messages arrive meanwhile.
   */
  lemma ListEnds(tables: seq<Table>, q: Query)
    requires tables != [] && Grows(tables) && forall i :: 0 <= i < |tables| ==> "" !in tables[i]
    requires NewerThanPageOne(tables, q)
    requires |tables| * PageLimit(q.limit) > |Selected(tables[0], q)|
    ensures Follow(tables, q, "").1
  {
    var ks := Keys(tables, q);
    FollowIsWalk(tables, q, "", None);
    assert ks[0] == Selected(tables[0], q);
    NothingOlderArrives(tables, q);
    WalkOutrunsInsertions(Descending, ks, PageLimit(q.limit));
  }

  lemma NothingOlderArrives(tables: seq<Table>, q: Query)
    requires tables != [] && Grows(tables) && NewerThanPageOne(tables, q)
    ensures NothingNewBelow(Descending, Keys(tables, q), PageLimit(q.limit))
  {
    var ks, page := Keys(tables, q), ListChatAudits(tables[0], q, "").messages;
    PageIsExact(Descending, ks[0], None, PageLimit(q.limit));
    assert page == PageOf(Descending, ks[0], None, PageLimit(q.limit));
    if page != [] {
      forall i | 1 <= i < |ks|
        ensures Beyond(Descending, ks[i], Some(page[|page| - 1])) <= Beyond(Descending, ks[0], Some(page[|page| - 1]))
      {
        OlderWereThere(tables, q, i, page[|page| - 1]);
      }
    }
  }

  lemma OlderWereThere(tables: seq<Table>, q: Query, i: nat, last: Key)
    requires i < |tables| && Grows(tables) && NewerThanPageOne(tables, q)
    requires last in ListChatAudits(tables[0], q, "").messages
    ensures Beyond(Descending, Selected(tables[i], q), Some(last)) <= Beyond(Descending, Selected(tables[0], q),
                                                                             Some(last))
  {
    forall k | k in Beyond(Descending, Selected(tables[i], q), Some(last)) ensures k in Selected(tables[0], q) {
      assert KeyLess(Key(tables[i][k.id].ts, k.id), last);
      assert k.id in tables[0] && tables[i][k.id] == tables[0][k.id];
    }
  }

  /** A cursor whose message has been deleted starts the list over: the one way to be shown a message twice. */
  lemma DeletedCursorStartsOver(t: Table, q: Query, beforeId: string)
    requires beforeId !in t
    ensures ListChatAudits(t, q, beforeId) == ListChatAudits(t, q, "")
  {
  }
}
