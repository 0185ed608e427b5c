/**
 * The `/api/cursos` routes, all behind `authMiddleware`: the tenant-scoped
 * list, lookup, create, update and delete with their ordered checks, and the
 * per-curs statistics. A curs's `codi` is unique within its centre, and a curs
 * with subjects, teachers or students cannot be deleted.
 */
module CursosRoutes {
  import opened Wrappers
  import opened Strings
  import opened Js
  import opened Seqs
  import opened Domain
  import opened Store
  import opened Http
  import opened ActivityLog
  import opened ErrorHandler
  import opened AuthMiddleware

  const CURS_NOT_FOUND := "Curs no trobat"
  const NO_CURS_ACCESS := "No tens accés a aquest curs"
  const CENTRE_NOT_FOUND := "Centre no trobat"
  const NO_CENTRE_ACCESS := "No tens accés a aquest centre"
  const CODI_TAKEN := "Ja existeix un curs amb aquest codi en aquest centre"
  const CURS_IN_USE := "No es pot eliminar un curs que té assignatures, professors o alumnes associats"

  // ---------------------------------------------------------------- list

  /** The `where` of the list query; an absent member does not filter. */
  datatype CursWhere = CursWhere(search: Option<string>, status: Option<string>, centreId: Option<string>)

  /** The filters the query asks for, with the caller's own centre forced below the superadmin. */
  function CursWhereOf(query: map<string, string>, caller: Identity): CursWhere {
    CursWhere(GivenParam(query, "search"), GivenParam(query, "status"),
              if caller.role == SuperAdmin then GivenParam(query, "centreId") else caller.centreId)
  }

  /** The `where` object, built by successive assignments as the list handler does. */
  method BuildCursWhere(query: map<string, string>, caller: Identity) returns (w: CursWhere)
    ensures w == CursWhereOf(query, caller)
  {
    w := CursWhere(None, None, None);
    if GivenParam(query, "search").Some? {
      w := w.(search := GivenParam(query, "search"));
    }
    if GivenParam(query, "status").Some? {
      w := w.(status := GivenParam(query, "status"));
    }
    if GivenParam(query, "centreId").Some? {
      w := w.(centreId := GivenParam(query, "centreId"));
    }
    if caller.role != SuperAdmin {
      w := w.(centreId := caller.centreId);
    }
  }

  /** Whether a curs satisfies the `where`: the search in `nom` or `codi`, ignoring case, and equal status and centre. */
  predicate MatchesWhere(w: CursWhere, c: Curs) {
    (w.search.None? || ContainsInsensitive(c.nom, w.search.value) || ContainsInsensitive(c.codi, w.search.value))
    && (w.status.None? || OrgStatusName(c.status) == w.status.value)
    && (w.centreId.None? || Some(c.centreId) == w.centreId)
  }

  function CursMatches(w: CursWhere): Curs -> bool {
    (c: Curs) => MatchesWhere(w, c)
  }

  /** `GET /` after `validatePagination`: the matching cursos, newest first, one page of them, and the count. */
  method ListCursos(db: Db, caller: Identity, query: map<string, string>, page: nat, limit: nat) returns (l: Listing<Curs>)
    requires page >= 1 && limit >= 1
    ensures l == ListPage(Filter(db.cursos, CursMatches(CursWhereOf(query, caller))), page, limit)
  {
    var w := BuildCursWhere(query, caller);
    l := ListPage(Filter(db.cursos, CursMatches(w)), page, limit);
  }

  /** Below the superadmin, a caller with a centre lists only cursos of that centre, whatever the query says. */
  lemma ListStaysInCentre(cursos: seq<Curs>, caller: Identity, query: map<string, string>, page: nat, limit: nat)
    requires page >= 1 && limit >= 1
    requires caller.role != SuperAdmin && caller.centreId.Some?
    ensures var l := ListPage(Filter(cursos, CursMatches(CursWhereOf(query, caller))), page, limit);
      forall i :: 0 <= i < |l.data| ==> Some(l.data[i].centreId) == caller.centreId
  {
    ListedSatisfy(cursos, CursMatches(CursWhereOf(query, caller)), page, limit);
  }

  // ---------------------------------------------------------------- get

  /** `validateId` on the route parameter `:id`. */
  function IdGate(id: string): Gate {
    ValidateId(map["id" := id])
  }

  /** A curs is visible to the superadmin and to the callers of its centre. */
  predicate SeesCurs(caller: Identity, c: Curs) {
    SeesCentre(caller, Some(c.centreId))
  }

  /**
   * The lookup shared by get, update, delete and the statistics: 404 for an
   * unknown id, then 403 for a curs of another centre. The result is the row.
   */
  function FindCurs(cursos: seq<Curs>, caller: Identity, id: string): (r: Result<nat, AppError>)
    ensures CursById(cursos, id).None? ==> r == Err(CreateError(CURS_NOT_FOUND, Some(404)))
    ensures CursById(cursos, id).Some? && !SeesCurs(caller, cursos[CursById(cursos, id).value]) ==>
      r == Err(CreateError(NO_CURS_ACCESS, Some(403)))
    ensures r.Ok? <==> CursById(cursos, id).Some? && SeesCurs(caller, cursos[CursById(cursos, id).value])
    ensures r.Ok? ==> CursById(cursos, id) == Some(r.value)
  {
    match CursById(cursos, id)
    case None => Err(CreateError(CURS_NOT_FOUND, Some(404)))
    case Some(k) => if !SeesCurs(caller, cursos[k]) then Err(CreateError(NO_CURS_ACCESS, Some(403))) else Ok(k)
  }

  /** `GET /:id`: `validateId`, then the lookup. */
  function GetCurs(cursos: seq<Curs>, caller: Identity, id: string): (o: Outcome<Curs>)
    ensures |id| < 10 ==> o == Stopped(400, "ID invàlid")
    ensures |id| >= 10 && FindCurs(cursos, caller, id).Err? ==> o == Failed(FindCurs(cursos, caller, id).error)
    ensures o.Served? <==> |id| >= 10 && CursById(cursos, id).Some? && SeesCurs(caller, cursos[CursById(cursos, id).value])
    ensures o.Served? ==> o.value in cursos && o.value.id == id && SeesCentre(caller, Some(o.value.centreId))
  {
    var g := IdGate(id);
    if g.Halt? then Stopped(g.status, g.message)
    else match FindCurs(cursos, caller, id)
      case Err(e) => Failed(e)
      case Ok(k) => Served(cursos[k])
  }

  // ---------------------------------------------------------------- audit rows

  /**
   * The object these handlers pass to `createActivityLog`: English keys
   * (`action`, `table`, `recordId`, `details`), the acting user, `req.ip`
   * as it is and the agent or `''`.
   */
  function CursLogData(action: string, recordId: string, userId: string, client: Client, details: Json): ActivityLogData {
    PutText(map["action" := JStr(action), "table" := JStr("cursos"), "recordId" := JStr(recordId), "userId" := JStr(userId),
                "userAgent" := JStr(AgentText(client)), "details" := details], "ipAddress", client.ip)
  }

  /** `req.get('User-Agent') || ''`. */
  function AgentText(client: Client): string {
    if TruthyStr(client.userAgent) then client.userAgent.value else ""
  }

  /**
   * That object has neither `accio` nor `taula`, the keys `createActivityLog`
   * turns into the required action and table columns, so the create is
   * rejected; the other keys would not reach the row either.
   */
  lemma CursLogRejected(action: string, recordId: string, userId: string, client: Client, details: Json)
    ensures !Insertable(CursLogData(action, recordId, userId, client, details))
    ensures Field(CursLogData(action, recordId, userId, client, details), "accio") == None
    ensures Field(CursLogData(action, recordId, userId, client, details), "taula") == None
  {
    var d := CursLogData(action, recordId, userId, client, details);
    assert Field(d, "accio") == None && Field(d, "taula") == None;
  }

  /**
   * `await createActivityLog({ action, table: 'cursos', recordId, userId: req.user!.id, ... })`,
   * unguarded: the create is rejected and swallowed, so the log is unchanged.
   */
  method LogCurs(db: Db, action: string, recordId: string, userId: string, client: Client, details: Json)
    requires db.Valid()
    modifies db`logs, db`serial
    ensures db.Valid() && db.serial == old(db.serial) + 1
    ensures db.logs == old(db.logs)
  {
    CursLogRejected(action, recordId, userId, client, details);
    CreateActivityLog(db, CursLogData(action, recordId, userId, client, details));
  }

  // ---------------------------------------------------------------- create

  /** The body of `POST /` once it has passed validation. */
  datatype NewCurs = NewCurs(nom: string, codi: string, centreId: string)

  /** `findFirst({ where: { codi, centreId, NOT: { id } } })`: another curs of the centre with that code. */
  function CodiHolder(codi: string, centreId: string, except: Option<string>): Curs -> bool {
    (c: Curs) => c.codi == codi && c.centreId == centreId && Some(c.id) != except
  }

  predicate CodiTaken(cursos: seq<Curs>, codi: string, centreId: string, except: Option<string>) {
    FirstIndex(cursos, CodiHolder(codi, centreId, except)).Some?
  }

  /** A code is taken exactly when some other curs of that centre carries it. */
  lemma CodiTakenIff(cursos: seq<Curs>, codi: string, centreId: string, except: Option<string>)
    ensures CodiTaken(cursos, codi, centreId, except) <==>
      exists j :: 0 <= j < |cursos| && cursos[j].codi == codi && cursos[j].centreId == centreId && Some(cursos[j].id) != except
  {
    var r := FirstIndex(cursos, CodiHolder(codi, centreId, except));
    if r.Some? {
      assert CodiHolder(codi, centreId, except)(cursos[r.value]);
    }
  }

  /**
   * The checks of `POST /`, in order: validation (400), the caller's centre
   * (403) before the centre's existence (404), then the code (409).
   */
  function CreateCursCheck(centres: seq<Centre>, cursos: seq<Curs>, caller: Identity, validation: Option<string>,
                           nc: NewCurs): (r: Option<AppError>)
    ensures validation.Some? ==> r == Some(CreateError(validation.value, Some(400)))
    ensures validation.None? && !SeesCentre(caller, Some(nc.centreId)) ==> r == Some(CreateError(NO_CENTRE_ACCESS, Some(403)))
    ensures validation.None? && SeesCentre(caller, Some(nc.centreId)) && CentreById(centres, nc.centreId).None? ==>
      r == Some(CreateError(CENTRE_NOT_FOUND, Some(404)))
    ensures r.None? <==>
      validation.None? && SeesCentre(caller, Some(nc.centreId)) && CentreById(centres, nc.centreId).Some?
      && !CodiTaken(cursos, nc.codi, nc.centreId, None)
    ensures (validation.None? && SeesCentre(caller, Some(nc.centreId)) && CentreById(centres, nc.centreId).Some?
             && CodiTaken(cursos, nc.codi, nc.centreId, None)) ==> r == Some(CreateError(CODI_TAKEN, Some(409)))
  {
    if validation.Some? then Some(CreateError(validation.value, Some(400)))
    else if !SeesCentre(caller, Some(nc.centreId)) then Some(CreateError(NO_CENTRE_ACCESS, Some(403)))
    else if CentreById(centres, nc.centreId).None? then Some(CreateError(CENTRE_NOT_FOUND, Some(404)))
    else if CodiTaken(cursos, nc.codi, nc.centreId, None) then Some(CreateError(CODI_TAKEN, Some(409)))
    else None
  }

  /** A centre admin's new curs is always in the admin's own centre. */
  lemma CreatedInOwnCentre(centres: seq<Centre>, cursos: seq<Curs>, caller: Identity, validation: Option<string>, nc: NewCurs)
    requires caller.role != SuperAdmin
    requires CreateCursCheck(centres, cursos, caller, validation, nc).None?
    ensures caller.centreId == Some(nc.centreId)
  {
  }

  /** `curs.create({ data: { nom, codi, centreId } })`: the schema's default status, created now. */
  function NewCursRow(nc: NewCurs, status: OrgStatus, now: nat): Curs {
    Curs("", nc.nom, nc.codi, nc.centreId, status, now)
  }

  /**
   * `POST /` (answered 201) behind `requireAdminCentre`: one curs is added
   * under the next fresh id, and the audit call is rejected, leaving the log as it was.
   */
  method CreateCurs(db: Db, caller: Identity, validation: Option<string>, nc: NewCurs, client: Client) returns (o: Outcome<Curs>)
    requires db.Valid()
    modifies db`serial, db`cursos, db`logs
    ensures db.Valid()
    ensures RequireAdminCentre(Some(caller)).Halt? ==>
      o == Stopped(RequireAdminCentre(Some(caller)).status, RequireAdminCentre(Some(caller)).message) && unchanged(db)
    ensures RequireAdminCentre(Some(caller)) == Next && CreateCursCheck(db.centres, old(db.cursos), caller, validation, nc).Some? ==>
      o == Failed(CreateCursCheck(db.centres, old(db.cursos), caller, validation, nc).value) && unchanged(db)
    ensures RequireAdminCentre(Some(caller)) == Next && CreateCursCheck(db.centres, old(db.cursos), caller, validation, nc).None? ==>
      var n := old(db.serial);
      var c := NewCursRow(nc, db.defaultOrgStatus, db.clock).(id := Generated(n));
      && o == Served(c)
      && db.cursos == old(db.cursos) + [c]
      && db.serial == n + 2
      && db.logs == old(db.logs)
  {
    var g := RequireAdminCentre(Some(caller));
    if g.Halt? {
      return Stopped(g.status, g.message);
    }
    var e := CreateCursCheck(db.centres, db.cursos, caller, validation, nc);
    if e.Some? {
      return Failed(e.value);
    }
    var c := db.CreateCurs(NewCursRow(nc, db.defaultOrgStatus, db.clock));
    LogCurs(db, "CREATE", c.id, caller.id, client,
            JObj(map["nom" := JStr(nc.nom), "codi" := JStr(nc.codi), "centreId" := JStr(nc.centreId)]));
    o := Served(c);
  }

  // ---------------------------------------------------------------- update

  /**
   * The body of `PUT /:id` once it has passed validation; an absent member
   * is left as it is. The body is written to the row as it came, so
   * `centreId`, which no validator looks at, is a column it can set too.
   */
  datatype CursUpdate = CursUpdate(nom: Option<string>, codi: Option<string>, status: Option<OrgStatus>,
                                   centreId: Option<string>)

  /** `curs.update({ data: updateData })`: the given members replace the stored ones. */
  function UpdatedCurs(c: Curs, upd: CursUpdate): (v: Curs)
    ensures v.id == c.id && v.createdAt == c.createdAt
    ensures v.nom == upd.nom.GetOr(c.nom) && v.codi == upd.codi.GetOr(c.codi) && v.status == upd.status.GetOr(c.status)
    ensures v.centreId == upd.centreId.GetOr(c.centreId)
  {
    c.(nom := upd.nom.GetOr(c.nom), codi := upd.codi.GetOr(c.codi), status := upd.status.GetOr(c.status),
       centreId := upd.centreId.GetOr(c.centreId))
  }

  /** `updateData` as the `details` of the audit call. */
  function CursUpdateDetails(upd: CursUpdate): Json {
    var d := PutText(PutText(map[], "nom", upd.nom), "codi", upd.codi);
    var d := PutText(d, "status", if upd.status.Some? then Some(OrgStatusName(upd.status.value)) else None);
    JObj(PutText(d, "centreId", upd.centreId))
  }

  /**
   * The checks of `PUT /:id`, in order: validation (400), the lookup (404,
   * 403), then, when a code is given, another curs of the curs's present
   * centre with that code (409). The curs itself does not count. Last, the
   * write itself fails on the foreign key when a given centre does not
   * exist (500).
   */
  function UpdateCursCheck(centres: seq<Centre>, cursos: seq<Curs>, caller: Identity, validation: Option<string>,
                           id: string, upd: CursUpdate): (r: Result<nat, AppError>)
    ensures validation.Some? ==> r == Err(CreateError(validation.value, Some(400)))
    ensures validation.None? && FindCurs(cursos, caller, id).Err? ==> r == Err(FindCurs(cursos, caller, id).error)
    ensures r.Ok? <==>
      validation.None? && FindCurs(cursos, caller, id).Ok?
      && !(TruthyStr(upd.codi) && CodiTaken(cursos, upd.codi.value, cursos[FindCurs(cursos, caller, id).value].centreId, Some(id)))
      && CentreRefOk(centres, upd.centreId)
    ensures validation.None? && FindCurs(cursos, caller, id).Ok?
            && !(TruthyStr(upd.codi) && CodiTaken(cursos, upd.codi.value, cursos[FindCurs(cursos, caller, id).value].centreId, Some(id)))
            && !CentreRefOk(centres, upd.centreId) ==>
      r == Err(ConstraintError())
    ensures r.Ok? ==> r == FindCurs(cursos, caller, id)
  {
    if validation.Some? then Err(CreateError(validation.value, Some(400)))
    else match FindCurs(cursos, caller, id)
      case Err(e) => Err(e)
      case Ok(k) =>
        if TruthyStr(upd.codi) && CodiTaken(cursos, upd.codi.value, cursos[k].centreId, Some(id)) then
          Err(CreateError(CODI_TAKEN, Some(409)))
        else if !CentreRefOk(centres, upd.centreId) then Err(ConstraintError())
        else Ok(k)
  }

  /**
   * A centre admin can move a curs of their own centre into any other
   * existing centre: the target centre is checked for existence only, and
   * after the move the curs lies in a centre the admin does not see.
   */
  lemma CursMovesAcrossCentres(centres: seq<Centre>, cursos: seq<Curs>, caller: Identity, id: string, target: string)
    requires caller.role == AdminCentre && caller.centreId != Some(target)
    requires FindCurs(cursos, caller, id).Ok? && CentreById(centres, target).Some?
    ensures var upd := CursUpdate(None, None, None, Some(target));
      && UpdateCursCheck(centres, cursos, caller, None, id, upd).Ok?
      && UpdatedCurs(cursos[FindCurs(cursos, caller, id).value], upd).centreId == target
      && !SeesCentre(caller, Some(target))
  {
  }

  /**
   * The code is checked against the curs's present centre only: moving a
   * curs into another centre together with the code a curs there already
   * has passes, and leaves two cursos of that centre with one code.
   */
  lemma MoveSkipsCodiCheck(centres: seq<Centre>, cursos: seq<Curs>, caller: Identity, id: string, j: nat)
    requires FindCurs(cursos, caller, id).Ok? && j < |cursos| && cursos[j].id != id && cursos[j].codi != ""
    requires CentreById(centres, cursos[j].centreId).Some?
    requires !CodiTaken(cursos, cursos[j].codi, cursos[FindCurs(cursos, caller, id).value].centreId, Some(id))
    ensures var upd := CursUpdate(None, Some(cursos[j].codi), None, Some(cursos[j].centreId));
      var k := FindCurs(cursos, caller, id).value;
      && UpdateCursCheck(centres, cursos, caller, None, id, upd).Ok?
      && k != j
      && UpdatedCurs(cursos[k], upd).codi == cursos[j].codi
      && UpdatedCurs(cursos[k], upd).centreId == cursos[j].centreId
  {
  }

  /**
   * Keeping a curs's own code is never a conflict: when no other curs of
   * its centre has that code, resubmitting it passes the duplicate check.
   */
  lemma OwnCodiNoConflict(cursos: seq<Curs>, k: nat)
    requires DistinctKeys(cursos, IdOfCurs) && k < |cursos|
    requires forall j :: 0 <= j < |cursos| && j != k ==> !(cursos[j].codi == cursos[k].codi && cursos[j].centreId == cursos[k].centreId)
    ensures !CodiTaken(cursos, cursos[k].codi, cursos[k].centreId, Some(cursos[k].id))
  {
  }

  /**
   * `PUT /:id` behind `requireAdminCentre` and `validateId`: the curs is
   * rewritten in place and the audit call is rejected, leaving the log as it was.
   */
  method UpdateCurs(db: Db, caller: Identity, validation: Option<string>, id: string, upd: CursUpdate, client: Client)
    returns (o: Outcome<Curs>)
    requires db.Valid()
    modifies db`serial, db`cursos, db`logs
    ensures db.Valid()
    ensures RequireAdminCentre(Some(caller)).Halt? ==>
      o == Stopped(RequireAdminCentre(Some(caller)).status, RequireAdminCentre(Some(caller)).message) && unchanged(db)
    ensures RequireAdminCentre(Some(caller)) == Next && |id| < 10 ==> o == Stopped(400, "ID invàlid") && unchanged(db)
    ensures RequireAdminCentre(Some(caller)) == Next && |id| >= 10 && UpdateCursCheck(db.centres, old(db.cursos), caller, validation, id, upd).Err? ==>
      o == Failed(UpdateCursCheck(db.centres, old(db.cursos), caller, validation, id, upd).error) && unchanged(db)
    ensures RequireAdminCentre(Some(caller)) == Next && |id| >= 10 && UpdateCursCheck(db.centres, old(db.cursos), caller, validation, id, upd).Ok? ==>
      var k := UpdateCursCheck(db.centres, old(db.cursos), caller, validation, id, upd).value;
      var v := UpdatedCurs(old(db.cursos)[k], upd);
      && o == Served(v)
      && db.cursos == old(db.cursos)[k := v]
      && db.serial == old(db.serial) + 1
      && db.logs == old(db.logs)
  {
    var g := RequireAdminCentre(Some(caller));
    if g.Halt? {
      return Stopped(g.status, g.message);
    }
    var gid := IdGate(id);
    if gid.Halt? {
      return Stopped(gid.status, gid.message);
    }
    var r := UpdateCursCheck(db.centres, db.cursos, caller, validation, id, upd);
    if r.Err? {
      return Failed(r.error);
    }
    var v := UpdatedCurs(db.cursos[r.value], upd);
    db.UpdateCurs(r.value, v);
    LogCurs(db, "UPDATE", id, caller.id, client, CursUpdateDetails(upd));
    o := Served(v);
  }

  // ---------------------------------------------------------------- delete

  /** `where: { cursId }` on the member tables. */
  function InCurs(id: string): Member -> bool {
    (m: Member) => m.cursId == id
  }

  /** `where: { cursId, status: 'ACTIVE' }`. */
  function ActiveInCurs(id: string): Member -> bool {
    (m: Member) => m.cursId == id && m.status == OrgActive
  }

  /** `_count` of a curs: whether any subject, teacher or student belongs to it. */
  predicate HasMembers(assignatures: seq<Member>, professors: seq<Member>, alumnes: seq<Member>, id: string) {
    Count(assignatures, InCurs(id)) > 0 || Count(professors, InCurs(id)) > 0 || Count(alumnes, InCurs(id)) > 0
  }

  /** The checks of `DELETE /:id`, in order: the lookup (404, 403), then any member of the curs (400). */
  function DeleteCursCheck(cursos: seq<Curs>, assignatures: seq<Member>, professors: seq<Member>, alumnes: seq<Member>,
                           caller: Identity, id: string): (r: Result<nat, AppError>)
    ensures FindCurs(cursos, caller, id).Err? ==> r == Err(FindCurs(cursos, caller, id).error)
    ensures FindCurs(cursos, caller, id).Ok? && HasMembers(assignatures, professors, alumnes, id) ==>
      r == Err(CreateError(CURS_IN_USE, Some(400)))
    ensures r.Ok? <==> FindCurs(cursos, caller, id).Ok? && !HasMembers(assignatures, professors, alumnes, id)
    ensures r.Ok? ==> r == FindCurs(cursos, caller, id)
  {
    match FindCurs(cursos, caller, id)
    case Err(e) => Err(e)
    case Ok(k) => if HasMembers(assignatures, professors, alumnes, id) then Err(CreateError(CURS_IN_USE, Some(400))) else Ok(k)
  }

  /** A curs that passes the delete check has no subject, teacher or student pointing at it. */
  lemma DeletedCursUnreferenced(cursos: seq<Curs>, assignatures: seq<Member>, professors: seq<Member>, alumnes: seq<Member>,
                                caller: Identity, id: string)
    requires DeleteCursCheck(cursos, assignatures, professors, alumnes, caller, id).Ok?
    ensures forall i :: 0 <= i < |assignatures| ==> assignatures[i].cursId != id
    ensures forall i :: 0 <= i < |professors| ==> professors[i].cursId != id
    ensures forall i :: 0 <= i < |alumnes| ==> alumnes[i].cursId != id
  {
  }

  /** Removing row `k` of a keyed table removes exactly that curs: its id is gone and every other curs remains. */
  lemma DeletedCursGone(cursos: seq<Curs>, k: nat)
    requires DistinctKeys(cursos, IdOfCurs) && k < |cursos|
    ensures CursById(RemoveAt(cursos, k), cursos[k].id).None?
    ensures forall j :: 0 <= j < |cursos| && j != k ==> cursos[j] in RemoveAt(cursos, k)
  {
    RemoveAtExactly(cursos, IdOfCurs, k);
  }

  /**
   * `DELETE /:id` behind `requireAdminCentre` and `validateId`: exactly that
   * row is removed and the audit call is rejected, leaving the log as it was.
   */
  method DeleteCurs(db: Db, caller: Identity, id: string, client: Client) returns (o: Outcome<string>)
    requires db.Valid()
    modifies db`serial, db`cursos, db`logs
    ensures db.Valid()
    ensures RequireAdminCentre(Some(caller)).Halt? ==>
      o == Stopped(RequireAdminCentre(Some(caller)).status, RequireAdminCentre(Some(caller)).message) && unchanged(db)
    ensures RequireAdminCentre(Some(caller)) == Next && |id| < 10 ==> o == Stopped(400, "ID invàlid") && unchanged(db)
    ensures RequireAdminCentre(Some(caller)) == Next && |id| >= 10
            && DeleteCursCheck(old(db.cursos), db.assignatures, db.professors, db.alumnes, caller, id).Err? ==>
      o == Failed(DeleteCursCheck(old(db.cursos), db.assignatures, db.professors, db.alumnes, caller, id).error) && unchanged(db)
    ensures RequireAdminCentre(Some(caller)) == Next && |id| >= 10
            && DeleteCursCheck(old(db.cursos), db.assignatures, db.professors, db.alumnes, caller, id).Ok? ==>
      var k := DeleteCursCheck(old(db.cursos), db.assignatures, db.professors, db.alumnes, caller, id).value;
      && o == Served("Curs eliminat correctament")
      && db.cursos == RemoveAt(old(db.cursos), k)
      && db.serial == old(db.serial) + 1
      && db.logs == old(db.logs)
  {
    var g := RequireAdminCentre(Some(caller));
    if g.Halt? {
      return Stopped(g.status, g.message);
    }
    var gid := IdGate(id);
    if gid.Halt? {
      return Stopped(gid.status, gid.message);
    }
    var r := DeleteCursCheck(db.cursos, db.assignatures, db.professors, db.alumnes, caller, id);
    if r.Err? {
      return Failed(r.error);
    }
    var c := db.cursos[r.value];
    db.DeleteCurs(r.value);
    LogCurs(db, "DELETE", id, caller.id, client, JObj(map["nom" := JStr(c.nom), "codi" := JStr(c.codi)]));
    o := Served("Curs eliminat correctament");
  }

  // ---------------------------------------------------------------- statistics

  /** A total and its active part. */
  datatype Tally = Tally(total: nat, active: nat)

  datatype CursStats = CursStats(curs: Curs, assignatures: Tally, professors: Tally, alumnes: Tally)

  /** The count of a member table for one curs, and of its active rows. */
  function TallyOf(members: seq<Member>, id: string): (t: Tally)
    ensures t.active <= t.total <= |members|
  {
    CountMonotone(members, InCurs(id), ActiveInCurs(id));
    Tally(Count(members, InCurs(id)), Count(members, ActiveInCurs(id)))
  }

  /** `GET /:id/estadistiques`: `validateId`, the lookup, then the three tallies. */
  function CursStatistics(cursos: seq<Curs>, assignatures: seq<Member>, professors: seq<Member>, alumnes: seq<Member>,
                          caller: Identity, id: string): (o: Outcome<CursStats>)
    ensures |id| < 10 ==> o == Stopped(400, "ID invàlid")
    ensures |id| >= 10 && FindCurs(cursos, caller, id).Err? ==> o == Failed(FindCurs(cursos, caller, id).error)
    ensures o.Served? <==> |id| >= 10 && FindCurs(cursos, caller, id).Ok?
    ensures o.Served? ==>
      && o.value.curs.id == id
      && o.value.assignatures.active <= o.value.assignatures.total
      && o.value.professors.active <= o.value.professors.total
      && o.value.alumnes.active <= o.value.alumnes.total
  {
    var g := IdGate(id);
    if g.Halt? then Stopped(g.status, g.message)
    else match FindCurs(cursos, caller, id)
      case Err(e) => Failed(e)
      case Ok(k) => Served(CursStats(cursos[k], TallyOf(assignatures, id), TallyOf(professors, id), TallyOf(alumnes, id)))
  }
}
