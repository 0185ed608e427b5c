/**
 * The audit-log utilities: storing a row, the unmounted `res.send`
 * interceptor with its URL heuristics, the queries over the log table, the
 * retention cleanup, and the helpers that log authentication events.
 */
module ActivityLog {
  import opened Wrappers
  import opened Strings
  import opened Js
  import opened Seqs
  import opened Domain
  import opened Store
  import opened Http

  /** The object handed to `createActivityLog`: whatever keys the caller wrote. */
  type ActivityLogData = map<string, Json>

  /** A string-valued field of the data; any other value (or none) leaves the column empty. */
  function Text(v: Option<Json>): Option<string> {
    match v
    case Some(JStr(s)) => Some(s)
    case _ => None
  }

  /** `data.key = v`, where assigning `undefined` leaves the key without a value. */
  function Put(data: ActivityLogData, key: string, v: Option<Json>): (r: ActivityLogData)
    ensures Field(r, key) == v
    ensures forall k :: k != key ==> Field(r, k) == Field(data, k)
  {
    if v.Some? then data[key := v.value] else data - {key}
  }

  /** An optional string as an optional JSON value: `undefined` stays `undefined`. */
  function JsonText(v: Option<string>): (j: Option<Json>)
    ensures Text(j) == v
  {
    if v.Some? then Some(JStr(v.value)) else None
  }

  /** An optional string value as an object field. */
  function PutText(data: ActivityLogData, key: string, v: Option<string>): (r: ActivityLogData)
    ensures Field(r, key) == JsonText(v)
    ensures forall k :: k != key ==> Field(r, k) == Field(data, k)
  {
    Put(data, key, JsonText(v))
  }

  /**
   * The row `prisma.activityLog.create` stores for `data`: only `accio`,
   * `taula`, `registreId`, `dadesNoves`, `userId`, `ipAddress` and
   * `userAgent` are read, and both time columns are the current time.
   */
  function StoredRow(data: ActivityLogData, id: string, now: nat): LogRow {
    LogRow(id, Text(Field(data, "accio")), Text(Field(data, "taula")), Text(Field(data, "registreId")),
           Text(Field(data, "userId")), Text(Field(data, "ipAddress")), Text(Field(data, "userAgent")),
           Field(data, "dadesNoves"), None, now, now)
  }

  /** The keys the stored row is made from. */
  predicate AgreeOnStoredKeys(d1: ActivityLogData, d2: ActivityLogData) {
    forall k :: k in {"accio", "taula", "registreId", "userId", "ipAddress", "userAgent", "dadesNoves"} ==>
      Field(d1, k) == Field(d2, k)
  }

  /** Any other key of the data, such as `action`, `table`, `recordId`, `details` or `centreId`, is dropped. */
  lemma StoredRowIgnoresOtherKeys(d1: ActivityLogData, d2: ActivityLogData, id: string, now: nat)
    requires AgreeOnStoredKeys(d1, d2)
    ensures StoredRow(d1, id, now) == StoredRow(d2, id, now)
  {
    assert Field(d1, "accio") == Field(d2, "accio");
    assert Field(d1, "taula") == Field(d2, "taula");
    assert Field(d1, "registreId") == Field(d2, "registreId");
    assert Field(d1, "userId") == Field(d2, "userId");
    assert Field(d1, "ipAddress") == Field(d2, "ipAddress");
    assert Field(d1, "userAgent") == Field(d2, "userAgent");
    assert Field(d1, "dadesNoves") == Field(d2, "dadesNoves");
  }

  lemma AppendKeepsChronological(logs: seq<LogRow>, clock: nat, row: LogRow)
    requires Chronological(logs, clock)
    requires row.createdAt == clock && row.timestamp == clock
    ensures Chronological(logs + [row], clock)
  {
    var s := logs + [row];
    forall i, j | 0 <= i < j < |s| ensures s[i].createdAt <= s[j].createdAt {
      if j < |logs| {
        assert s[i] == logs[i] && s[j] == logs[j];
      }
    }
  }

  /**
   * Whether the query engine accepts the row: `action` and `table` are
   * required text columns, so an object without string `accio` and `taula`
   * makes the create throw.
   */
  predicate Insertable(data: ActivityLogData) {
    Text(Field(data, "accio")).Some? && Text(Field(data, "taula")).Some?
  }

  /**
   * `createActivityLog(data)`: appends the stored row unless the create is
   * rejected, because the object lacks a required column or the table
   * refuses the write; the error is swallowed. It never fails.
   */
  method CreateActivityLog(db: Db, data: ActivityLogData)
    requires db.Valid()
    modifies db`logs, db`serial
    ensures db.Valid()
    ensures db.serial == old(db.serial) + 1
    ensures db.logs == old(db.logs) + (if db.auditFails || !Insertable(data) then [] else [StoredRow(data, Generated(old(db.serial)), db.clock)])
  {
    var id := db.FreshName();
    if !db.auditFails && Insertable(data) {
      AppendKeepsChronological(db.logs, db.clock, StoredRow(data, id, db.clock));
      db.logs := db.logs + [StoredRow(data, id, db.clock)];
    }
  }

  /**
   * The object most handlers pass: the event's `accio`, `taula` and
   * `registreId`, the acting user, the address, the agent and `dadesNoves`,
   * with `undefined` members left out.
   */
  function EventData(accio: string, taula: string, registreId: Option<string>, userId: Option<string>,
                     ip: Option<string>, userAgent: Option<string>, dadesNoves: Option<Json>): ActivityLogData {
    var d0 := map["accio" := JStr(accio), "taula" := JStr(taula)];
    Put(PutText(PutText(PutText(PutText(d0, "registreId", registreId), "userId", userId), "ipAddress", ip), "userAgent", userAgent),
        "dadesNoves", dadesNoves)
  }

  /** The two members every such object has survive the optional ones written after them. */
  lemma EventDataHead(accio: string, taula: string, registreId: Option<string>, userId: Option<string>,
                      ip: Option<string>, userAgent: Option<string>, dadesNoves: Option<Json>)
    ensures var d := EventData(accio, taula, registreId, userId, ip, userAgent, dadesNoves);
      Text(Field(d, "accio")) == Some(accio) && Text(Field(d, "taula")) == Some(taula)
  {
    var d0 := map["accio" := JStr(accio), "taula" := JStr(taula)];
    var d1 := PutText(d0, "registreId", registreId);
    var d2 := PutText(d1, "userId", userId);
    var d3 := PutText(d2, "ipAddress", ip);
    var d4 := PutText(d3, "userAgent", userAgent);
    var d := Put(d4, "dadesNoves", dadesNoves);
    assert "accio"[0] != "taula"[0];
    assert Field(d0, "accio") == Some(JStr(accio)) && Field(d0, "taula") == Some(JStr(taula));
    assert Field(d, "accio") == Field(d4, "accio") == Field(d3, "accio") == Field(d2, "accio") == Field(d1, "accio") == Field(d0, "accio");
    assert Field(d, "taula") == Field(d4, "taula") == Field(d3, "taula") == Field(d2, "taula") == Field(d1, "taula") == Field(d0, "taula");
  }

  /** Each optional member of such an object is the one given, or absent. */
  lemma EventDataOptional(accio: string, taula: string, registreId: Option<string>, userId: Option<string>,
                          ip: Option<string>, userAgent: Option<string>, dadesNoves: Option<Json>)
    ensures var d := EventData(accio, taula, registreId, userId, ip, userAgent, dadesNoves);
      && Field(d, "registreId") == JsonText(registreId) && Field(d, "userId") == JsonText(userId)
      && Field(d, "ipAddress") == JsonText(ip) && Field(d, "userAgent") == JsonText(userAgent)
      && Field(d, "dadesNoves") == dadesNoves
  {
    var d0 := map["accio" := JStr(accio), "taula" := JStr(taula)];
    var d1 := PutText(d0, "registreId", registreId);
    var d2 := PutText(d1, "userId", userId);
    var d3 := PutText(d2, "ipAddress", ip);
    var d4 := PutText(d3, "userAgent", userAgent);
    var d := Put(d4, "dadesNoves", dadesNoves);
    assert Field(d, "registreId") == Field(d4, "registreId") == Field(d3, "registreId") == Field(d2, "registreId") == Field(d1, "registreId");
    assert Field(d, "userId") == Field(d4, "userId") == Field(d3, "userId") == Field(d2, "userId");
    assert Field(d, "ipAddress") == Field(d4, "ipAddress") == Field(d3, "ipAddress");
    assert Field(d, "userAgent") == Field(d4, "userAgent");
  }

  /** Every member of such an object reaches its column. */
  lemma StoredEvent(accio: string, taula: string, registreId: Option<string>, userId: Option<string>,
                    ip: Option<string>, userAgent: Option<string>, dadesNoves: Option<Json>, id: string, now: nat)
    ensures StoredRow(EventData(accio, taula, registreId, userId, ip, userAgent, dadesNoves), id, now)
         == LogRow(id, Some(accio), Some(taula), registreId, userId, ip, userAgent, dadesNoves, None, now, now)
  {
    EventDataHead(accio, taula, registreId, userId, ip, userAgent, dadesNoves);
    EventDataOptional(accio, taula, registreId, userId, ip, userAgent, dadesNoves);
  }

  /** `createActivityLog` with such an object. */
  method LogEvent(db: Db, accio: string, taula: string, registreId: Option<string>, userId: Option<string>,
                  ip: Option<string>, userAgent: Option<string>, dadesNoves: Option<Json>)
    requires db.Valid()
    modifies db`logs, db`serial
    ensures db.Valid() && db.serial == old(db.serial) + 1
    ensures db.logs == AfterLog(old(db.logs), db.auditFails,
      LogRow(Generated(old(db.serial)), Some(accio), Some(taula), registreId, userId, ip, userAgent, dadesNoves, None, db.clock, db.clock))
  {
    StoredEvent(accio, taula, registreId, userId, ip, userAgent, dadesNoves, Generated(db.serial), db.clock);
    CreateActivityLog(db, EventData(accio, taula, registreId, userId, ip, userAgent, dadesNoves));
  }

  /** The log after a handler's `if (userId) await createActivityLog(...)`. */
  function CallerLog(logs: seq<LogRow>, fails: bool, userId: string, row: LogRow): seq<LogRow> {
    if userId == "" then logs else AfterLog(logs, fails, row)
  }

  /**
   * `const userId = req.user?.id; if (userId) await createActivityLog({ accio, taula, registreId, userId, ... })`:
   * the guarded audit row of the resource routes.
   */
  method LogIfCaller(db: Db, userId: string, accio: string, taula: string, registreId: string,
                     ip: Option<string>, userAgent: Option<string>, dadesNoves: Option<Json>)
    requires db.Valid()
    modifies db`logs, db`serial
    ensures db.Valid()
    ensures db.serial == old(db.serial) + (if userId == "" then 0 else 1)
    ensures db.logs == CallerLog(old(db.logs), db.auditFails, userId,
      LogRow(Generated(old(db.serial)), Some(accio), Some(taula), Some(registreId), Some(userId), ip, userAgent, dadesNoves, None, db.clock, db.clock))
  {
    if userId != "" {
      LogEvent(db, accio, taula, Some(registreId), Some(userId), ip, userAgent, dadesNoves);
    }
  }

  // ---------------------------------------------------------------- URL heuristics

  /** `getActionFromMethod`. */
  function ActionFromMethod(httpMethod: string): (a: string)
    ensures a in {"CREATE", "UPDATE", "DELETE", "READ", "UNKNOWN"}
    ensures a == "UPDATE" <==> httpMethod == "PUT" || httpMethod == "PATCH"
    ensures a == "UNKNOWN" <==> httpMethod !in {"POST", "PUT", "PATCH", "DELETE", "GET"}
  {
    match httpMethod
    case "POST" => "CREATE"
    case "PUT" => "UPDATE"
    case "PATCH" => "UPDATE"
    case "DELETE" => "DELETE"
    case "GET" => "READ"
    case _ => "UNKNOWN"
  }

  /** The non-empty `/`-separated segments of the URL's path (everything before the first `?`). */
  /** The filter `Boolean` applied to a string. */
  function NonEmpty(s: string): bool { s != "" }

  function UrlSegments(url: string): (segs: seq<string>)
    ensures forall i :: 0 <= i < |segs| ==> segs[i] != "" && '/' !in segs[i]
  {
    var parts := Split(BeforeFirst(url, '?'), '/');
    var segs := Filter(parts, NonEmpty);
    assert forall i :: 0 <= i < |segs| ==> segs[i] in parts;
    segs
  }

  /** `getTableFromUrl`: the third non-empty segment, or `'unknown'` when there are fewer than three. */
  function TableFromUrl(url: string): (t: string)
    ensures |UrlSegments(url)| >= 3 ==> t == UrlSegments(url)[2]
    ensures |UrlSegments(url)| < 3 ==> t == "unknown"
  {
    var segs := UrlSegments(url);
    if |segs| >= 3 then (if segs[2] != "" then segs[2] else "unknown") else "unknown"
  }

  // ---------------------------------------------------------------- paths of the form /api/<table>/...

  /** A path segment as the routes produce them: non-empty, without `/` or `?`. */
  predicate PlainSegment(s: string) {
    s != "" && '/' !in s && '?' !in s
  }

  /** `"/" + s` for each segment, concatenated. */
  function JoinedPath(segs: seq<string>): string {
    if |segs| == 0 then "" else "/" + segs[0] + JoinedPath(segs[1..])
  }

  /** `/api/<table>` followed by further segments. */
  function ApiPath(table: string, rest: seq<string>): string {
    "/api/" + table + JoinedPath(rest)
  }

  lemma {:induction false} JoinedPathHasNoQuery(segs: seq<string>)
    requires forall i :: 0 <= i < |segs| ==> PlainSegment(segs[i])
    ensures '?' !in JoinedPath(segs)
    decreases |segs|
  {
    if |segs| > 0 {
      JoinedPathHasNoQuery(segs[1..]);
      assert JoinedPath(segs) == "/" + segs[0] + JoinedPath(segs[1..]);
    }
  }

  lemma {:induction false} SplitJoinedPath(first: string, rest: seq<string>)
    requires '/' !in first
    requires forall i :: 0 <= i < |rest| ==> '/' !in rest[i]
    ensures Split(first + JoinedPath(rest), '/') == [first] + rest
    decreases |rest|
  {
    if |rest| == 0 {
      assert first + JoinedPath(rest) == first;
      SplitNoSeparator(first, '/');
    } else {
      assert first + JoinedPath(rest) == first + ['/'] + (rest[0] + JoinedPath(rest[1..]));
      SplitAfterSeparator(first, '/', rest[0] + JoinedPath(rest[1..]));
      SplitJoinedPath(rest[0], rest[1..]);
      assert [rest[0]] + rest[1..] == rest;
    }
  }

  /** `/api/<table>...` as the pieces `split('/')` takes apart. */
  lemma ApiPathPieces(table: string, rest: seq<string>)
    ensures ApiPath(table, rest) == "" + ['/'] + ("api" + ['/'] + (table + JoinedPath(rest)))
  {
    assert "/api/" == "" + ['/'] + ("api" + ['/']);
  }

  /** Splitting `/api/<table>/...` without dropping anything: a leading empty piece, then the segments. */
  lemma SplitApiPath(table: string, rest: seq<string>)
    requires PlainSegment(table)
    requires forall i :: 0 <= i < |rest| ==> PlainSegment(rest[i])
    ensures Split(ApiPath(table, rest), '/') == ["", "api", table] + rest
  {
    var tail := table + JoinedPath(rest);
    ApiPathPieces(table, rest);
    SplitAfterSeparator("", '/', "api" + ['/'] + tail);
    SplitAfterSeparator("api", '/', tail);
    SplitJoinedPath(table, rest);
  }

  /** The same path seen through `UrlSegments`: the empty piece is dropped. */
  lemma SegmentsOfApiPath(table: string, rest: seq<string>)
    requires PlainSegment(table)
    requires forall i :: 0 <= i < |rest| ==> PlainSegment(rest[i])
    ensures UrlSegments(ApiPath(table, rest)) == ["api", table] + rest
  {
    var path := ApiPath(table, rest);
    JoinedPathHasNoQuery(rest);
    assert '?' !in path;
    assert BeforeFirst(path, '?') == path;
    SplitApiPath(table, rest);
    assert ["", "api", table] + rest == [""] + (["api", table] + rest);
    DropLeadingEmpty(["api", table] + rest);
  }

  /** Filtering out empty pieces from pieces of which only the first is empty. */
  lemma DropLeadingEmpty(s: seq<string>)
    requires forall i :: 0 <= i < |s| ==> s[i] != ""
    ensures Filter([""] + s, NonEmpty) == s
  {
    FilterAppend([""], s, NonEmpty);
    FilterAll(s, NonEmpty);
  }

  /**
   * The utilities' table heuristic counts from the first non-empty segment,
   * so on `/api/<table>` it finds no table at all, and on `/api/<table>/<id>`
   * it takes the id for the table.
   */
  lemma TableFromApiUrl(table: string, rest: seq<string>)
    requires PlainSegment(table)
    requires forall i :: 0 <= i < |rest| ==> PlainSegment(rest[i])
    ensures rest == [] ==> TableFromUrl(ApiPath(table, rest)) == "unknown"
    ensures rest != [] ==> TableFromUrl(ApiPath(table, rest)) == rest[0]
  {
    SegmentsOfApiPath(table, rest);
  }

  // ---------------------------------------------------------------- addSpecificData

  /** The keys `addSpecificData` may set besides `registreId` and `dadesNoves`. */
  const IdKeys: set<string> := {"centreId", "cursId", "assignaturaId", "professorId", "alumneId", "rubricaId", "avaluacioId", "integracioId"}

  /** Assignments `data.k = v`, performed in order. */
  type Assignments = seq<(string, Option<Json>)>

  function ApplyAll(data: ActivityLogData, asg: Assignments): ActivityLogData
    decreases |asg|
  {
    if |asg| == 0 then data else ApplyAll(Put(data, asg[0].0, asg[0].1), asg[1..])
  }

  /** A key no assignment names keeps its value. */
  lemma {:induction false} ApplyAllOtherKey(data: ActivityLogData, asg: Assignments, k: string)
    requires forall i :: 0 <= i < |asg| ==> asg[i].0 != k
    ensures Field(ApplyAll(data, asg), k) == Field(data, k)
    decreases |asg|
  {
    if |asg| > 0 {
      ApplyAllOtherKey(Put(data, asg[0].0, asg[0].1), asg[1..], k);
    }
  }

  /** `if (req.body.k) data.k = req.body.k`. */
  function FromBody(body: map<string, Json>, k: string): Assignments {
    if Truthy(Field(body, k)) then [(k, Field(body, k))] else []
  }

  /** The tables the `switch (data.taula)` of `addSpecificData` knows. */
  datatype KnownTable = Centres | Cursos | Assignatures | Professors | Alumnes | Rubriques | Avaluacions | Integracions

  /** Which `case` of the switch a `taula` value selects, if any. */
  function TableKind(table: Option<string>): Option<KnownTable> {
    match table
    case Some("centres") => Some(Centres)
    case Some("cursos") => Some(Cursos)
    case Some("assignatures") => Some(Assignatures)
    case Some("professors") => Some(Professors)
    case Some("alumnes") => Some(Alumnes)
    case Some("rubriques") => Some(Rubriques)
    case Some("avaluacions") => Some(Avaluacions)
    case Some("integracions") => Some(Integracions)
    case _ => None
  }

  /** The key holding the record's own id, for each known table. */
  function OwnIdKey(t: KnownTable): (k: string)
    ensures k in IdKeys
  {
    match t
    case Centres => "centreId"
    case Cursos => "cursId"
    case Assignatures => "assignaturaId"
    case Professors => "professorId"
    case Alumnes => "alumneId"
    case Rubriques => "rubricaId"
    case Avaluacions => "avaluacioId"
    case Integracions => "integracioId"
  }

  /** The references a known table copies from the body, in the order it copies them. */
  function CopiedKeys(t: KnownTable): (ks: seq<string>)
    ensures forall i :: 0 <= i < |ks| ==> ks[i] in IdKeys
  {
    match t
    case Cursos => ["centreId"]
    case Assignatures => ["cursId"]
    case Alumnes => ["centreId", "cursId"]
    case Rubriques => ["assignaturaId"]
    case Avaluacions => ["alumneId", "rubricaId"]
    case Integracions => ["centreId"]
    case _ => []
  }

  /** `FromBody` for each key in turn. */
  function FromBodyAll(body: map<string, Json>, ks: seq<string>): Assignments
    decreases |ks|
  {
    if |ks| == 0 then [] else FromBody(body, ks[0]) + FromBodyAll(body, ks[1..])
  }

  /**
   * What the `switch (data.taula)` assigns: the table's own id key receives
   * `registreId`, then some tables copy references from the body.
   */
  function TableAssignments(table: Option<KnownTable>, rid: Option<Json>, body: map<string, Json>): Assignments {
    if table.None? then [] else [(OwnIdKey(table.value), rid)] + FromBodyAll(body, CopiedKeys(table.value))
  }

  /** Every assignment of `asg` names one of `ks` and copies a truthy body field. */
  predicate CopiesOf(asg: Assignments, body: map<string, Json>, ks: seq<string>) {
    forall i :: 0 <= i < |asg| ==> asg[i].0 in ks && asg[i].1 == Field(body, asg[i].0) && Truthy(asg[i].1)
  }

  lemma {:induction false} FromBodyAllShape(body: map<string, Json>, ks: seq<string>)
    ensures CopiesOf(FromBodyAll(body, ks), body, ks)
    decreases |ks|
  {
    if |ks| > 0 {
      FromBodyAllShape(body, ks[1..]);
      var head := FromBody(body, ks[0]);
      var rest := FromBodyAll(body, ks[1..]);
      var asg: Assignments := head + rest;
      assert FromBodyAll(body, ks) == asg;
      forall i | 0 <= i < |asg| ensures asg[i].0 in ks && asg[i].1 == Field(body, asg[i].0) && Truthy(asg[i].1) {
        if i < |head| {
          assert Truthy(Field(body, ks[0])) && head == [(ks[0], Field(body, ks[0]))];
          assert asg[i] == head[0];
        } else {
          var j := i - |head|;
          assert asg[i] == rest[j];
          assert rest[j].0 in ks[1..];
        }
      }
    }
  }

  /**
   * Only id keys are assigned. A known table first gets its own id key set to
   * the record id, and every later assignment copies a truthy body field; an
   * unknown table (or a non-string `taula`) gets nothing.
   */
  lemma TableAssignmentsShape(table: Option<KnownTable>, rid: Option<Json>, body: map<string, Json>)
    ensures var asg := TableAssignments(table, rid, body);
      (forall i :: 0 <= i < |asg| ==> asg[i].0 in IdKeys)
      && (forall i :: 1 <= i < |asg| ==> asg[i].1 == Field(body, asg[i].0) && Truthy(asg[i].1))
      && (table.None? <==> asg == [])
      && (table.Some? ==> asg[0] == (OwnIdKey(table.value), rid))
  {
    if table.Some? {
      var ks := CopiedKeys(table.value);
      FromBodyAllShape(body, ks);
      var asg := TableAssignments(table, rid, body);
      var copies := FromBodyAll(body, ks);
      forall i | 1 <= i < |asg| ensures asg[i].0 in IdKeys && asg[i].1 == Field(body, asg[i].0) && Truthy(asg[i].1) {
        assert asg[i] == copies[i - 1];
        assert copies[i - 1].0 in ks;
      }
    }
  }

  /** The record id the URL names: its fourth non-empty segment, unless that is `search` or `stats`. */
  function RecordIdFromUrl(url: string): Option<string> {
    var segs := UrlSegments(url);
    if |segs| >= 4 && segs[3] != "search" && segs[3] != "stats" then Some(segs[3]) else None
  }

  lemma {:induction false} ApplyAllConcat(data: ActivityLogData, a: Assignments, b: Assignments)
    ensures ApplyAll(data, a + b) == ApplyAll(ApplyAll(data, a), b)
    decreases |a|
  {
    if |a| > 0 {
      assert (a + b)[1..] == a[1..] + b;
      ApplyAllConcat(Put(data, a[0].0, a[0].1), a[1..], b);
    } else {
      assert a + b == b;
    }
  }

  lemma ApplyFromBody(data: ActivityLogData, body: map<string, Json>, k: string)
    ensures ApplyAll(data, FromBody(body, k)) == if Truthy(Field(body, k)) then Put(data, k, Field(body, k)) else data
  {
  }

  /** The own id first, then the copies. */
  lemma ApplyTable(data: ActivityLogData, t: KnownTable, rid: Option<Json>, body: map<string, Json>)
    ensures ApplyAll(data, TableAssignments(Some(t), rid, body)) == ApplyAll(Put(data, OwnIdKey(t), rid), FromBodyAll(body, CopiedKeys(t)))
  {
    ApplyAllConcat(data, [(OwnIdKey(t), rid)], FromBodyAll(body, CopiedKeys(t)));
  }

  /** Copying the first key, then the rest. */
  lemma ApplyFromBodyAll(data: ActivityLogData, body: map<string, Json>, ks: seq<string>)
    requires |ks| > 0
    ensures ApplyAll(data, FromBodyAll(body, ks))
      == ApplyAll(if Truthy(Field(body, ks[0])) then Put(data, ks[0], Field(body, ks[0])) else data, FromBodyAll(body, ks[1..]))
  {
    ApplyAllConcat(data, FromBody(body, ks[0]), FromBodyAll(body, ks[1..]));
    ApplyFromBody(data, body, ks[0]);
  }

  /** The `switch (data.taula)` of `addSpecificData`. */
  method AssignTableIds(data: ActivityLogData, rid: Option<Json>, body: map<string, Json>) returns (r: ActivityLogData)
    ensures r == ApplyAll(data, TableAssignments(TableKind(Text(Field(data, "taula"))), rid, body))
  {
    var kind := TableKind(Text(Field(data, "taula")));
    if kind.None? {
      return data;
    }
    var t := kind.value;
    ApplyTable(data, t, rid, body);
    r := Put(data, OwnIdKey(t), rid);
    var ks := CopiedKeys(t);
    if |ks| > 0 {
      ApplyFromBodyAll(r, body, ks);
      if Truthy(Field(body, ks[0])) { r := Put(r, ks[0], Field(body, ks[0])); }
      if |ks| > 1 {
        ApplyFromBodyAll(r, body, ks[1..]);
        if Truthy(Field(body, ks[1])) { r := Put(r, ks[1], Field(body, ks[1])); }
        assert ks[1..][1..] == [];
      }
    }
  }

  /**
   * What `addSpecificData` does outside the table's id keys: the record id
   * from the URL, the body for writes, and every other key as it was.
   */
  ghost predicate SpecificDataAdded(data: ActivityLogData, r: ActivityLogData, httpMethod: string, url: string, body: map<string, Json>) {
    && Field(r, "registreId") == (if RecordIdFromUrl(url).Some? then Some(JStr(RecordIdFromUrl(url).value)) else Field(data, "registreId"))
    && Field(r, "dadesNoves") == (if httpMethod in {"POST", "PUT", "PATCH"} then Some(JObj(body)) else Field(data, "dadesNoves"))
    && forall k :: k !in IdKeys && k != "registreId" && k != "dadesNoves" ==> Field(r, k) == Field(data, k)
  }

  /**
   * `addSpecificData(data, req)`: the record id from the URL, the table's id
   * keys as `TableAssignments` lists them, the body as `dadesNoves` for
   * writes, and every other key as it was.
   */
  method AddSpecificData(data: ActivityLogData, httpMethod: string, url: string, body: map<string, Json>) returns (r: ActivityLogData)
    ensures var rid := if RecordIdFromUrl(url).Some? then Some(JStr(RecordIdFromUrl(url).value)) else Field(data, "registreId");
      Field(r, "registreId") == rid
      && forall k :: k in IdKeys ==>
        Field(r, k) == Field(ApplyAll(data, TableAssignments(TableKind(Text(Field(data, "taula"))), rid, body)), k)
    ensures Field(r, "dadesNoves") == if httpMethod in {"POST", "PUT", "PATCH"} then Some(JObj(body)) else Field(data, "dadesNoves")
    ensures forall k :: k !in IdKeys && k != "registreId" && k != "dadesNoves" ==> Field(r, k) == Field(data, k)
    ensures SpecificDataAdded(data, r, httpMethod, url, body)
  {
    var withId := WithRecordId(data, url);
    var rid := Field(withId, "registreId");
    r := AssignTableIds(withId, rid, body);
    AssignedFields(data, withId, rid, body);
    if httpMethod == "POST" || httpMethod == "PUT" || httpMethod == "PATCH" {
      r := r["dadesNoves" := JObj(body)];
    }
  }

  /** The first step of `addSpecificData`: `registreId` from the URL when it names a record. */
  method WithRecordId(data: ActivityLogData, url: string) returns (withId: ActivityLogData)
    ensures Field(withId, "registreId") == if RecordIdFromUrl(url).Some? then Some(JStr(RecordIdFromUrl(url).value)) else Field(data, "registreId")
    ensures forall k :: k != "registreId" ==> Field(withId, k) == Field(data, k)
  {
    var segs := UrlSegments(url);
    withId := data;
    if |segs| >= 4 && segs[3] != "search" && segs[3] != "stats" {
      withId := data["registreId" := JStr(segs[3])];
    }
  }

  /** The switch on a copy that differs only in `registreId` sets the id keys as it would on the original, and nothing else. */
  lemma AssignedFields(data: ActivityLogData, withId: ActivityLogData, rid: Option<Json>, body: map<string, Json>)
    requires forall k :: k != "registreId" ==> Field(withId, k) == Field(data, k)
    ensures var asg := TableAssignments(TableKind(Text(Field(data, "taula"))), rid, body);
      && ApplyAll(withId, TableAssignments(TableKind(Text(Field(withId, "taula"))), rid, body)) == ApplyAll(withId, asg)
      && (forall k :: k in IdKeys ==> Field(ApplyAll(withId, asg), k) == Field(ApplyAll(data, asg), k))
      && (forall k :: k !in IdKeys ==> Field(ApplyAll(withId, asg), k) == Field(withId, k))
    ensures "registreId" !in IdKeys && "dadesNoves" !in IdKeys
  {
    var table := TableKind(Text(Field(data, "taula")));
    assert Field(withId, "taula") == Field(data, "taula");
    TableAssignmentsShape(table, rid, body);
    ReservedKeysNotIdKeys();
    IdKeysOnly(data, withId, "registreId", TableAssignments(table, rid, body));
  }

  /** `registreId` and `dadesNoves` are not id keys. */
  lemma ReservedKeysNotIdKeys()
    ensures "registreId" !in IdKeys && "dadesNoves" !in IdKeys
  {
    assert |"registreId"| == |"dadesNoves"| == 10;
    assert forall k :: k in IdKeys ==> |k| != 10;
  }

  /**
   * Assignments to id keys only, applied to a copy of `data` that differs at
   * most in one key `x` outside the id keys: the id keys end as they would
   * from `data`, and every other key keeps the copy's value.
   */
  lemma IdKeysOnly(data: ActivityLogData, withId: ActivityLogData, x: string, asg: Assignments)
    requires x !in IdKeys
    requires forall k :: k != x ==> Field(withId, k) == Field(data, k)
    requires forall i :: 0 <= i < |asg| ==> asg[i].0 in IdKeys
    ensures forall k :: k in IdKeys ==> Field(ApplyAll(withId, asg), k) == Field(ApplyAll(data, asg), k)
    ensures forall k :: k !in IdKeys ==> Field(ApplyAll(withId, asg), k) == Field(withId, k)
  {
    forall k | k in IdKeys ensures Field(ApplyAll(withId, asg), k) == Field(ApplyAll(data, asg), k) {
      ApplyAllSameOn(data, withId, asg, k);
    }
    forall k | k !in IdKeys ensures Field(ApplyAll(withId, asg), k) == Field(withId, k) {
      ApplyAllOtherKey(withId, asg, k);
    }
  }

  /** Two starting points that agree on a key still agree after the same assignments. */
  lemma {:induction false} ApplyAllSameOn(d1: ActivityLogData, d2: ActivityLogData, asg: Assignments, k: string)
    requires Field(d1, k) == Field(d2, k)
    ensures Field(ApplyAll(d1, asg), k) == Field(ApplyAll(d2, asg), k)
    decreases |asg|
  {
    if |asg| > 0 {
      ApplyAllSameOn(Put(d1, asg[0].0, asg[0].1), Put(d2, asg[0].0, asg[0].1), asg[1..], k);
    }
  }

  // ---------------------------------------------------------------- the utilities' interceptor

  /** The log after one `createActivityLog` call whose row is `row`. */
  function AfterLog(logs: seq<LogRow>, fails: bool, row: LogRow): seq<LogRow> {
    if fails then logs else logs + [row]
  }

  /**
   * `activityLogger` of the utilities (the server does not mount it): it
   * wraps `res.send` and calls `next()`.
   */
  method InstallActivityLogger(req: Request, res: Response) returns (g: Gate)
    modifies res`hook
    ensures g == Next && res.hook == UtilsAudit(req)
  {
    res.hook := UtilsAudit(req);
    g := Next;
  }

  /** The object the wrapper builds before `addSpecificData`. */
  function InterceptedData(httpMethod: string, url: string, userId: string, ip: Option<string>, userAgent: Option<string>): ActivityLogData {
    EventData(ActionFromMethod(httpMethod), TableFromUrl(url), None, Some(userId), ip, userAgent, None)
  }

  /**
   * The row the wrapper stores: action and table from the heuristics, the
   * record id from the URL, the body for writes, and none of the id keys.
   */
  function InterceptedRow(httpMethod: string, url: string, body: map<string, Json>, userId: string, ip: Option<string>,
                          userAgent: Option<string>, id: string, now: nat): LogRow {
    LogRow(id, Some(ActionFromMethod(httpMethod)), Some(TableFromUrl(url)), RecordIdFromUrl(url), Some(userId), ip, userAgent,
           if httpMethod in {"POST", "PUT", "PATCH"} then Some(JObj(body)) else None, None, now, now)
  }

  /** The keys the wrapper writes are none of the keys `addSpecificData` writes. */
  lemma InterceptedKeysUntouched()
    ensures forall k :: k in {"accio", "taula", "userId", "ipAddress", "userAgent"} ==> k !in IdKeys && k != "registreId" && k != "dadesNoves"
  {
  }

  lemma InterceptedDataFields(httpMethod: string, url: string, userId: string, ip: Option<string>, userAgent: Option<string>)
    ensures var base := InterceptedData(httpMethod, url, userId, ip, userAgent);
      Field(base, "registreId") == None && Field(base, "dadesNoves") == None
      && Field(base, "accio") == Some(JStr(ActionFromMethod(httpMethod)))
      && Field(base, "taula") == Some(JStr(TableFromUrl(url)))
      && Field(base, "userId") == Some(JStr(userId))
      && Text(Field(base, "ipAddress")) == ip && Text(Field(base, "userAgent")) == userAgent
  {
    EventDataHead(ActionFromMethod(httpMethod), TableFromUrl(url), None, Some(userId), ip, userAgent, None);
    EventDataOptional(ActionFromMethod(httpMethod), TableFromUrl(url), None, Some(userId), ip, userAgent, None);
  }

  /**
   * Whatever `addSpecificData` adds to the wrapper's object, the stored row
   * is `InterceptedRow`: the keys the wrapper wrote survive, and the id keys
   * are dropped on storage.
   */
  lemma StoredInterceptedRow(data: ActivityLogData, httpMethod: string, url: string, body: map<string, Json>, userId: string,
                             ip: Option<string>, userAgent: Option<string>, id: string, now: nat)
    requires SpecificDataAdded(InterceptedData(httpMethod, url, userId, ip, userAgent), data, httpMethod, url, body)
    ensures StoredRow(data, id, now) == InterceptedRow(httpMethod, url, body, userId, ip, userAgent, id, now)
  {
    var base := InterceptedData(httpMethod, url, userId, ip, userAgent);
    InterceptedKeysUntouched();
    InterceptedDataFields(httpMethod, url, userId, ip, userAgent);
    var row := StoredRow(data, id, now);
    assert row.action == Some(ActionFromMethod(httpMethod)) by {
      assert Field(data, "accio") == Field(base, "accio");
    }
    assert row.table == Some(TableFromUrl(url)) by {
      assert Field(data, "taula") == Field(base, "taula");
    }
    assert row.userId == Some(userId) by {
      assert Field(data, "userId") == Field(base, "userId");
    }
    assert row.ipAddress == ip by {
      assert Field(data, "ipAddress") == Field(base, "ipAddress");
    }
    assert row.userAgent == userAgent by {
      assert Field(data, "userAgent") == Field(base, "userAgent");
    }
    assert row.recordId == RecordIdFromUrl(url);
    assert row.details == if httpMethod in {"POST", "PUT", "PATCH"} then Some(JObj(body)) else None;
  }

  /** What the wrapped `send` does before the original `send`: log a write made by a signed-in user. */
  method UtilsAuditOnSend(db: Db, req: Request)
    requires db.Valid()
    modifies db`logs, db`serial
    ensures db.Valid()
    ensures req.user.Some? && req.httpMethod != "GET" ==>
      db.serial == old(db.serial) + 1
      && db.logs == AfterLog(old(db.logs), db.auditFails,
                             InterceptedRow(req.httpMethod, req.url, req.body, req.user.value.id, req.ip, req.userAgent,
                                            Generated(old(db.serial)), db.clock))
    ensures req.user.None? || req.httpMethod == "GET" ==> db.serial == old(db.serial) && db.logs == old(db.logs)
  {
    if req.user.Some? && req.httpMethod != "GET" {
      var base := InterceptedData(req.httpMethod, req.url, req.user.value.id, req.ip, req.userAgent);
      var data := AddSpecificData(base, req.httpMethod, req.url, req.body);
      StoredInterceptedRow(data, req.httpMethod, req.url, req.body, req.user.value.id, req.ip, req.userAgent, Generated(db.serial), db.clock);
      CreateActivityLog(db, data);
    }
  }

  // ---------------------------------------------------------------- queries

  /** The `where` of `getActivityLogs`: each present field must match. */
  datatype LogQuery = LogQuery(userId: Option<string>, table: Option<string>, action: Option<string>)

  predicate Matches(r: LogRow, q: LogQuery) {
    (q.userId.Some? ==> r.userId == q.userId)
    && (q.table.Some? ==> r.table == q.table)
    && (q.action.Some? ==> r.action == q.action)
  }

  /**
   * The table in time order is newest first once reversed, and stays so
   * under filtering and paging; every row returned is a stored row that
   * passes the filter.
   */
  lemma NewestFirst(logs: seq<LogRow>, clock: nat, p: LogRow -> bool, skip: nat, take: nat)
    requires Chronological(logs, clock)
    ensures var rows := Page(Reverse(Filter(logs, p)), skip, take);
      && NonIncreasing(rows, (r: LogRow) => r.createdAt)
      && NonIncreasing(rows, (r: LogRow) => r.timestamp)
      && forall i :: 0 <= i < |rows| ==> rows[i] in logs && p(rows[i])
  {
    var matching := Filter(logs, p);
    var rows := Page(Reverse(matching), skip, take);
    FilterKeepsAscending(logs, p, (r: LogRow) => r.createdAt);
    ReverseOrder(matching, (r: LogRow) => r.createdAt);
    PageKeepsOrder(Reverse(matching), skip, take, (r: LogRow) => r.createdAt);
    forall i | 0 <= i < |rows| ensures rows[i] in logs && p(rows[i]) {
      assert rows[i] == matching[|matching| - 1 - (skip + i)];
    }
    forall i | 0 <= i < |rows| ensures rows[i].timestamp == rows[i].createdAt {
      var j :| 0 <= j < |logs| && logs[j] == rows[i];
    }
    TimestampOrder(rows);
  }

  /** Rows whose timestamp is their creation time are ordered by either. */
  lemma TimestampOrder(rows: seq<LogRow>)
    requires NonIncreasing(rows, (r: LogRow) => r.createdAt)
    requires forall i :: 0 <= i < |rows| ==> rows[i].timestamp == rows[i].createdAt
    ensures NonIncreasing(rows, (r: LogRow) => r.timestamp)
  {
    forall i, j | 0 <= i < j < |rows| ensures rows[i].timestamp >= rows[j].timestamp {
      assert rows[i].createdAt >= rows[j].createdAt;
    }
  }


  /**
   * `getActivityLogs(userId, table, action, limit = 100, offset = 0)`: a
   * filter is applied only for a truthy argument; newest first, `offset`
   * rows skipped, at most `limit` returned.
   */
  method GetActivityLogs(db: Db, userId: Option<string>, table: Option<string>, action: Option<string>,
                         limit: Option<nat>, offset: Option<nat>) returns (rows: seq<LogRow>)
    requires db.Valid()
    ensures rows == Page(Reverse(Filter(db.logs, (r: LogRow) => Matches(r, LogQuery(OrUndefined(userId), OrUndefined(table), OrUndefined(action))))),
                         offset.GetOr(0), limit.GetOr(100))
    ensures |rows| <= limit.GetOr(100)
    ensures forall i :: 0 <= i < |rows| ==> rows[i] in db.logs
    ensures forall i :: 0 <= i < |rows| ==>
      (TruthyStr(userId) ==> rows[i].userId == userId)
      && (TruthyStr(table) ==> rows[i].table == table)
      && (TruthyStr(action) ==> rows[i].action == action)
    ensures NonIncreasing(rows, (r: LogRow) => r.timestamp)
  {
    var q := LogQuery(None, None, None);
    if TruthyStr(userId) { q := q.(userId := userId); }
    if TruthyStr(table) { q := q.(table := table); }
    if TruthyStr(action) { q := q.(action := action); }
    assert q == LogQuery(OrUndefined(userId), OrUndefined(table), OrUndefined(action));
    var p := (r: LogRow) => Matches(r, q);
    var matching := Filter(db.logs, p);
    rows := Page(Reverse(matching), offset.GetOr(0), limit.GetOr(100));
    NewestFirst(db.logs, db.clock, p, offset.GetOr(0), limit.GetOr(100));
  }

  /** `getUserActivityHistory(userId, limit = 50)`: that user's rows, newest first. */
  method GetUserActivityHistory(db: Db, userId: string, limit: Option<nat>) returns (rows: seq<LogRow>)
    requires db.Valid()
    ensures rows == Page(Reverse(Filter(db.logs, (r: LogRow) => r.userId == Some(userId))), 0, limit.GetOr(50))
    ensures |rows| <= limit.GetOr(50)
    ensures forall i :: 0 <= i < |rows| ==> rows[i] in db.logs && rows[i].userId == Some(userId)
    ensures NonIncreasing(rows, (r: LogRow) => r.createdAt)
  {
    var p := (r: LogRow) => r.userId == Some(userId);
    rows := Page(Reverse(Filter(db.logs, p)), 0, limit.GetOr(50));
    NewestFirst(db.logs, db.clock, p, 0, limit.GetOr(50));
  }

  /** `getCentreActivityHistory(centreId, limit = 50)`: the rows whose `centreId` column is that centre. */
  method GetCentreActivityHistory(db: Db, centreId: string, limit: Option<nat>) returns (rows: seq<LogRow>)
    requires db.Valid()
    ensures rows == Page(Reverse(Filter(db.logs, (r: LogRow) => r.centreId == Some(centreId))), 0, limit.GetOr(50))
    ensures |rows| <= limit.GetOr(50)
    ensures forall i :: 0 <= i < |rows| ==> rows[i] in db.logs && rows[i].centreId == Some(centreId)
    ensures NonIncreasing(rows, (r: LogRow) => r.createdAt)
  {
    var p := (r: LogRow) => r.centreId == Some(centreId);
    rows := Page(Reverse(Filter(db.logs, p)), 0, limit.GetOr(50));
    NewestFirst(db.logs, db.clock, p, 0, limit.GetOr(50));
  }

  /** No caller fills the `centreId` column, so a centre's history stays empty. */
  lemma CentreHistoryEmpty(logs: seq<LogRow>, centreId: string, skip: nat, take: nat)
    requires forall i :: 0 <= i < |logs| ==> logs[i].centreId == None
    ensures Page(Reverse(Filter(logs, (r: LogRow) => r.centreId == Some(centreId))), skip, take) == []
  {
    FilterNone(logs, (r: LogRow) => r.centreId == Some(centreId));
  }

  /** `createActivityLog` never fills the `centreId` column. */
  lemma StoredRowHasNoCentre(data: ActivityLogData, id: string, now: nat)
    ensures StoredRow(data, id, now).centreId == None
  {
  }

  // ---------------------------------------------------------------- retention

  const DAY_MS: nat := 86400000

  /**
   * `cleanupOldLogs(daysToKeep = 90)`: deletes the rows created before the
   * cutoff, `daysToKeep` days before now, and returns how many went. Because
   * rows are appended in time order, the deleted rows are the oldest ones, a
   * prefix of the table.
   */
  method CleanupOldLogs(db: Db, daysToKeep: Option<int>) returns (count: nat)
    requires db.Valid()
    modifies db`logs
    ensures db.Valid()
    ensures var cutoff := old(db.clock) - daysToKeep.GetOr(90) * DAY_MS;
      db.logs == Filter(old(db.logs), (r: LogRow) => r.createdAt >= cutoff)
      && count == Count(old(db.logs), (r: LogRow) => r.createdAt < cutoff)
    ensures count <= |old(db.logs)| && db.logs == old(db.logs)[count..]
  {
    var cutoff: int := db.clock - daysToKeep.GetOr(90) * DAY_MS;
    var keep := (r: LogRow) => r.createdAt >= cutoff;
    var drop := (r: LogRow) => r.createdAt < cutoff;
    count := Count(db.logs, drop);
    SortedThreshold(db.logs, (r: LogRow) => r.createdAt, cutoff, keep, drop);
    ChronologicalSuffix(db.logs, db.clock, count);
    db.logs := Filter(db.logs, keep);
  }

  lemma ChronologicalSuffix(logs: seq<LogRow>, clock: nat, k: nat)
    requires Chronological(logs, clock) && k <= |logs|
    ensures Chronological(logs[k..], clock)
  {
    var r := logs[k..];
    assert forall i :: 0 <= i < |r| ==> r[i] == logs[k + i];
  }

  // ---------------------------------------------------------------- helpers for specific events

  datatype AuthAction = LoginAction | LogoutAction

  function AuthActionName(a: AuthAction): string {
    match a
    case LoginAction => "LOGIN"
    case LogoutAction => "LOGOUT"
  }

  /** `logAuthActivity(userId, action, ipAddress, userAgent)`: a row on `users` naming the user as record and actor. */
  method LogAuthActivity(db: Db, userId: string, action: AuthAction, ipAddress: Option<string>, userAgent: Option<string>)
    requires db.Valid()
    modifies db`logs, db`serial
    ensures db.Valid() && db.serial == old(db.serial) + 1
    ensures db.logs == AfterLog(old(db.logs), db.auditFails,
      LogRow(Generated(old(db.serial)), Some(AuthActionName(action)), Some("users"), Some(userId), Some(userId),
             ipAddress, userAgent, None, None, db.clock, db.clock))
  {
    LogEvent(db, AuthActionName(action), "users", Some(userId), Some(userId), ipAddress, userAgent, None);
  }

  /** `logPasswordChange(userId, ipAddress, userAgent)`. */
  method LogPasswordChange(db: Db, userId: string, ipAddress: Option<string>, userAgent: Option<string>)
    requires db.Valid()
    modifies db`logs, db`serial
    ensures db.Valid() && db.serial == old(db.serial) + 1
    ensures db.logs == AfterLog(old(db.logs), db.auditFails,
      LogRow(Generated(old(db.serial)), Some("PASSWORD_CHANGE"), Some("users"), Some(userId), Some(userId),
             ipAddress, userAgent, None, None, db.clock, db.clock))
  {
    LogEvent(db, "PASSWORD_CHANGE", "users", Some(userId), Some(userId), ipAddress, userAgent, None);
  }

  /** `logAccessDenied(userId, resource, ipAddress, userAgent)`: the resource is recorded as the table. */
  method LogAccessDenied(db: Db, userId: string, resource: string, ipAddress: Option<string>, userAgent: Option<string>)
    requires db.Valid()
    modifies db`logs, db`serial
    ensures db.Valid() && db.serial == old(db.serial) + 1
    ensures db.logs == AfterLog(old(db.logs), db.auditFails,
      LogRow(Generated(old(db.serial)), Some("ACCESS_DENIED"), Some(resource), None, Some(userId),
             ipAddress, userAgent, None, None, db.clock, db.clock))
  {
    LogEvent(db, "ACCESS_DENIED", resource, None, Some(userId), ipAddress, userAgent, None);
  }

  /** The `dadesNoves` of a system error: its message, its stack and the context, `undefined` members omitted. */
  function ErrorDetails(message: string, stack: Option<string>, context: Option<Json>): map<string, Json> {
    var withStack := if stack.Some? then map["error" := JStr(message), "stack" := JStr(stack.value)] else map["error" := JStr(message)];
    if context.Some? then withStack["context" := context.value] else withStack
  }

  /** `logSystemError(error, userId, context)`: a row on table `system` holding the error. */
  method LogSystemError(db: Db, message: string, stack: Option<string>, userId: Option<string>, context: Option<Json>)
    requires db.Valid()
    modifies db`logs, db`serial
    ensures db.Valid() && db.serial == old(db.serial) + 1
    ensures db.logs == AfterLog(old(db.logs), db.auditFails,
      LogRow(Generated(old(db.serial)), Some("SYSTEM_ERROR"), Some("system"), None, userId,
             None, None, Some(JObj(ErrorDetails(message, stack, context))), None, db.clock, db.clock))
  {
    LogEvent(db, "SYSTEM_ERROR", "system", None, userId, None, None, Some(JObj(ErrorDetails(message, stack, context))));
  }
}
