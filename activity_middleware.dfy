/**
 * The audit interceptor the server mounts: for every request that is not a
 * GET it wraps `res.send` so that, when the response is sent, a row is handed
 * to `createActivityLog`. Its path heuristics split without dropping empty
 * pieces, unlike the utilities' `getTableFromUrl`.
 */
module ActivityMiddleware {
  import opened Wrappers
  import opened Strings
  import opened Js
  import opened Domain
  import opened Store
  import opened Http
  import opened ActivityLog

  /** `getTableFromPath`: the third piece of the path split on `/`, or `'unknown'`. */
  function TableFromPath(path: string): (t: string)
    ensures |Split(path, '/')| >= 3 ==> t == Split(path, '/')[2]
    ensures |Split(path, '/')| < 3 ==> t == "unknown"
  {
    var parts := Split(path, '/');
    if |parts| >= 3 then parts[2] else "unknown"
  }

  /** `getRecordIdFromPath`: the fourth piece, or `null` (`None`). */
  function RecordIdFromPath(path: string): (r: Option<string>)
    ensures |Split(path, '/')| >= 4 ==> r == Some(Split(path, '/')[3])
    ensures |Split(path, '/')| < 4 ==> r == None
  {
    var parts := Split(path, '/');
    if |parts| >= 4 then Some(parts[3]) else None
  }

  /** On `/api/<table>/...` the table is the table's own segment and the record id the next one. */
  lemma PathHeuristicsOnApiPath(table: string, rest: seq<string>)
    requires PlainSegment(table)
    requires forall i :: 0 <= i < |rest| ==> PlainSegment(rest[i])
    ensures TableFromPath(ApiPath(table, rest)) == table
    ensures RecordIdFromPath(ApiPath(table, rest)) == if rest == [] then None else Some(rest[0])
  {
    SplitApiPath(table, rest);
  }

  /** A trailing slash after the table yields an empty record id rather than `null`. */
  lemma TrailingSlashRecordId(table: string)
    requires PlainSegment(table)
    ensures RecordIdFromPath("/api/" + table + "/") == Some("")
    ensures TableFromPath("/api/" + table + "/") == table
  {
    var path := "/api/" + table + "/";
    assert path == "" + ['/'] + ("api" + ['/'] + (table + ['/'] + ""));
    SplitAfterSeparator("", '/', "api" + ['/'] + (table + ['/'] + ""));
    SplitAfterSeparator("api", '/', table + ['/'] + "");
    SplitAfterSeparator(table, '/', "");
    SplitNoSeparator("", '/');
  }

  /**
   * On a full `/api/<table>/...` path the two table heuristics disagree:
   * the path one names the table, the URL one names nothing for
   * `/api/<table>` and the record id for `/api/<table>/<id>`. This is about
   * the two functions on full paths; inside a router `req.path` and
   * `req.url` are relative to the mount point by the time `send` runs, so
   * there neither heuristic sees the `/api/<table>` prefix.
   */
  lemma HeuristicsDisagree(table: string, rest: seq<string>)
    requires PlainSegment(table)
    requires forall i :: 0 <= i < |rest| ==> PlainSegment(rest[i])
    ensures TableFromPath(ApiPath(table, rest)) == table
    ensures TableFromUrl(ApiPath(table, rest)) == if rest == [] then "unknown" else rest[0]
  {
    PathHeuristicsOnApiPath(table, rest);
    TableFromApiUrl(table, rest);
  }

  /** `activityLogger`: a GET leaves `send` alone; any other method gets the wrapper. Either way `next()` follows. */
  method ActivityLogger(req: Request, res: Response) returns (g: Gate)
    modifies res`hook
    ensures g == Next
    ensures req.httpMethod == "GET" ==> res.hook == old(res.hook)
    ensures req.httpMethod != "GET" ==> res.hook == MiddlewareAudit(req)
  {
    if req.httpMethod == "GET" {
      return Next;
    }
    res.hook := MiddlewareAudit(req);
    g := Next;
  }

  /** The object the wrapper hands to `createActivityLog`, with the keys it writes. */
  function MiddlewareData(httpMethod: string, path: string, body: map<string, Json>, statusCode: nat, userId: string,
                          ip: Option<string>, userAgent: Option<string>): ActivityLogData {
    var recordId := if RecordIdFromPath(path).Some? then JStr(RecordIdFromPath(path).value) else JNull;
    var details := JObj(map["path" := JStr(path), "method" := JStr(httpMethod), "body" := JObj(body), "statusCode" := JNum(statusCode)]);
    PutText(map["action" := JStr(httpMethod), "table" := JStr(TableFromPath(path)), "recordId" := recordId,
                "userId" := JStr(userId), "userAgent" := JStr(if TruthyStr(userAgent) then userAgent.value else ""),
                "details" := details], "ipAddress", ip)
  }

  /** The wrapper writes the raw method, the path's table and record id, and the request in `details`. */
  lemma MiddlewareDataContents(httpMethod: string, path: string, body: map<string, Json>, statusCode: nat, userId: string,
                               ip: Option<string>, userAgent: Option<string>)
    ensures var d := MiddlewareData(httpMethod, path, body, statusCode, userId, ip, userAgent);
      && Field(d, "action") == Some(JStr(httpMethod))
      && Field(d, "table") == Some(JStr(TableFromPath(path)))
      && Field(d, "details") == Some(JObj(map["path" := JStr(path), "method" := JStr(httpMethod), "body" := JObj(body), "statusCode" := JNum(statusCode)]))
  {
  }

  /**
   * Because those keys are not the ones `createActivityLog` reads, the object
   * has no `accio` and no `taula` and the create is rejected.
   */
  lemma MiddlewareDataRejected(httpMethod: string, path: string, body: map<string, Json>, statusCode: nat, userId: string,
                               ip: Option<string>, userAgent: Option<string>)
    ensures !Insertable(MiddlewareData(httpMethod, path, body, statusCode, userId, ip, userAgent))
    ensures Field(MiddlewareData(httpMethod, path, body, statusCode, userId, ip, userAgent), "accio") == None
    ensures Field(MiddlewareData(httpMethod, path, body, statusCode, userId, ip, userAgent), "taula") == None
  {
    var d := MiddlewareData(httpMethod, path, body, statusCode, userId, ip, userAgent);
    assert Field(d, "accio") == None && Field(d, "taula") == None;
  }

  /**
   * `res.send(body)` as it is at the moment: the wrapper in place logs first,
   * then the original `send` always puts the same body on the wire. The
   * middleware's wrapper makes a create that is rejected, so only the
   * utilities' wrapper adds a row.
   */
  method Send(db: Db, res: Response, body: Json)
    requires db.Valid()
    modifies db`logs, db`serial, res`sent
    ensures db.Valid()
    ensures res.sent == old(res.sent) + [body]
    ensures res.hook.Original? ==> db.logs == old(db.logs) && db.serial == old(db.serial)
    ensures res.hook.MiddlewareAudit? ==>
      var req := res.hook.req;
      db.logs == old(db.logs) && db.serial == old(db.serial) + (if req.user.Some? then 1 else 0)
    ensures res.hook.UtilsAudit? ==>
      var req := res.hook.req;
      if req.user.Some? && req.httpMethod != "GET" then
        db.serial == old(db.serial) + 1
        && db.logs == AfterLog(old(db.logs), db.auditFails,
             InterceptedRow(req.httpMethod, req.url, req.body, req.user.value.id, req.ip, req.userAgent, Generated(old(db.serial)), db.clock))
      else db.logs == old(db.logs) && db.serial == old(db.serial)
  {
    match res.hook {
      case Original =>
      case MiddlewareAudit(req) =>
        if req.user.Some? {
          MiddlewareDataRejected(req.httpMethod, req.path, req.body, res.statusCode, req.user.value.id, req.ip, req.userAgent);
          CreateActivityLog(db, MiddlewareData(req.httpMethod, req.path, req.body, res.statusCode, req.user.value.id, req.ip, req.userAgent));
        }
      case UtilsAudit(req) =>
        UtilsAuditOnSend(db, req);
    }
    res.sent := res.sent + [body];
  }
}
