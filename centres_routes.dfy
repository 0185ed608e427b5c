/**
 * The `/api/centres` routes, all behind `authMiddleware`: any signed-in user
 * lists and reads centres and their statistics; only the superadmin creates,
 * updates and deletes them. A centre's `codi` and `emailDomain` are each
 * unique, and a centre with users or cursos cannot be deleted.
 */
module CentresRoutes {
  import opened Wrappers
  import opened Strings
  import opened Js
  import opened Seqs
  import opened Domain
  import opened Store
  import opened Http
  import opened ActivityLog
  import opened ErrorHandler
  import opened AuthMiddleware

  const CENTRE_NOT_FOUND := "Centre no trobat"
  const CENTRE_TAKEN := "Ja existeix un centre amb aquest codi o domini d'email"
  const CENTRE_IN_USE := "No es pot eliminar un centre que té usuaris o cursos associats"

  // ---------------------------------------------------------------- list

  /** The `where` of the list query: a search term and a status, with no tenant restriction. */
  datatype CentreWhere = CentreWhere(search: Option<string>, status: Option<string>)

  function CentreWhereOf(query: map<string, string>): CentreWhere {
    CentreWhere(GivenParam(query, "search"), GivenParam(query, "status"))
  }

  /** The `where` object, built by successive assignments as the list handler does. */
  method BuildCentreWhere(query: map<string, string>) returns (w: CentreWhere)
    ensures w == CentreWhereOf(query)
  {
    w := CentreWhere(None, None);
    if GivenParam(query, "search").Some? {
      w := w.(search := GivenParam(query, "search"));
    }
    if GivenParam(query, "status").Some? {
      w := w.(status := GivenParam(query, "status"));
    }
  }

  /** Whether a centre satisfies the `where`: the search in `nom`, `codi` or `emailDomain`, ignoring case, and an equal status. */
  predicate MatchesWhere(w: CentreWhere, c: Centre) {
    (w.search.None? || ContainsInsensitive(c.nom, w.search.value) || ContainsInsensitive(c.codi, w.search.value)
                    || ContainsInsensitive(c.emailDomain, w.search.value))
    && (w.status.None? || OrgStatusName(c.status) == w.status.value)
  }

  function CentreMatches(w: CentreWhere): Centre -> bool {
    (c: Centre) => MatchesWhere(w, c)
  }

  /** `GET /` after `validatePagination`: the matching centres, newest first, one page of them, and the count. */
  method ListCentres(db: Db, query: map<string, string>, page: nat, limit: nat) returns (l: Listing<Centre>)
    requires page >= 1 && limit >= 1
    ensures l == ListPage(Filter(db.centres, CentreMatches(CentreWhereOf(query))), page, limit)
  {
    var w := BuildCentreWhere(query);
    l := ListPage(Filter(db.centres, CentreMatches(w)), page, limit);
  }

  /** Without a search or a status every centre matches, whoever asks: the total is the whole table. */
  lemma UnfilteredListIsEverything(centres: seq<Centre>, query: map<string, string>, page: nat, limit: nat)
    requires page >= 1 && limit >= 1
    requires GivenParam(query, "search").None? && GivenParam(query, "status").None?
    ensures ListPage(Filter(centres, CentreMatches(CentreWhereOf(query))), page, limit).total == |centres|
  {
    FilterAll(centres, CentreMatches(CentreWhereOf(query)));
  }

  // ---------------------------------------------------------------- get

  /** `validateId` on the route parameter `:id`. */
  function IdGate(id: string): Gate {
    ValidateId(map["id" := id])
  }

  /** The lookup shared by the handlers: 404 for an unknown id, and no tenant check. */
  function FindCentre(centres: seq<Centre>, id: string): (r: Result<nat, AppError>)
    ensures r.Err? <==> CentreById(centres, id).None?
    ensures r.Err? ==> r.error == CreateError(CENTRE_NOT_FOUND, Some(404))
    ensures r.Ok? ==> CentreById(centres, id) == Some(r.value)
  {
    match CentreById(centres, id)
    case None => Err(CreateError(CENTRE_NOT_FOUND, Some(404)))
    case Some(k) => Ok(k)
  }

  /** `GET /:id`: `validateId`, then the lookup; the caller's role and centre play no part. */
  function GetCentre(centres: seq<Centre>, id: string): (o: Outcome<Centre>)
    ensures |id| < 10 ==> o == Stopped(400, "ID invàlid")
    ensures |id| >= 10 && CentreById(centres, id).None? ==> o == Failed(CreateError(CENTRE_NOT_FOUND, Some(404)))
    ensures o.Served? <==> |id| >= 10 && CentreById(centres, id).Some?
    ensures o.Served? ==> o.value in centres && o.value.id == id
  {
    var g := IdGate(id);
    if g.Halt? then Stopped(g.status, g.message)
    else match FindCentre(centres, id)
      case Err(e) => Failed(e)
      case Ok(k) => Served(centres[k])
  }

  // ---------------------------------------------------------------- create

  /** The body of `POST /` once it has passed validation. */
  datatype NewCentre = NewCentre(nom: string, codi: string, emailDomain: string)

  /** `OR: [{ codi }, { emailDomain }]`. */
  function SharesKey(codi: string, emailDomain: string): Centre -> bool {
    (c: Centre) => c.codi == codi || c.emailDomain == emailDomain
  }

  /** The checks of `POST /`: validation (400), then any centre with the same code or the same domain (409). */
  function CreateCentreCheck(centres: seq<Centre>, validation: Option<string>, nc: NewCentre): (r: Option<AppError>)
    ensures validation.Some? ==> r == Some(CreateError(validation.value, Some(400)))
    ensures validation.None? && r.Some? ==> r == Some(CreateError(CENTRE_TAKEN, Some(409)))
    ensures r.None? <==>
      validation.None? && forall j :: 0 <= j < |centres| ==> centres[j].codi != nc.codi && centres[j].emailDomain != nc.emailDomain
  {
    if validation.Some? then Some(CreateError(validation.value, Some(400)))
    else match FirstIndex(centres, SharesKey(nc.codi, nc.emailDomain))
      case Some(j) => assert SharesKey(nc.codi, nc.emailDomain)(centres[j]); Some(CreateError(CENTRE_TAKEN, Some(409)))
      case None => None
  }

  /** `centre.create({ data: { nom, codi, emailDomain } })`: the schema's default status, created now. */
  function NewCentreRow(nc: NewCentre, status: OrgStatus, now: nat): Centre {
    Centre("", nc.nom, nc.codi, nc.emailDomain, status, now)
  }

  /** The `dadesNoves` of the `CREATE` row. */
  function NewCentreDetails(nc: NewCentre): Json {
    JObj(map["nom" := JStr(nc.nom), "codi" := JStr(nc.codi), "emailDomain" := JStr(nc.emailDomain)])
  }

  /** `req.ip || ''` and `req.get('User-Agent') || ''`. */
  function IpOrEmpty(client: Client): Option<string> { OrStr(client.ip, Some("")) }
  function AgentOrEmpty(client: Client): Option<string> { OrStr(client.userAgent, Some("")) }

  /** Centres whose codes and domains are pairwise distinct. */
  predicate KeysUnique(centres: seq<Centre>) {
    forall i, j :: 0 <= i < j < |centres| ==> centres[i].codi != centres[j].codi && centres[i].emailDomain != centres[j].emailDomain
  }

  /** A successful create keeps codes and domains unique. */
  lemma CreateKeepsKeysUnique(centres: seq<Centre>, validation: Option<string>, nc: NewCentre, c: Centre)
    requires KeysUnique(centres)
    requires CreateCentreCheck(centres, validation, nc).None?
    requires c.codi == nc.codi && c.emailDomain == nc.emailDomain
    ensures KeysUnique(centres + [c])
  {
    var r := centres + [c];
    forall i, j | 0 <= i < j < |r| ensures r[i].codi != r[j].codi && r[i].emailDomain != r[j].emailDomain {
      assert r[i] == centres[i];
      if j < |centres| {
        assert r[j] == centres[j];
      }
    }
  }

  /**
   * `POST /` (answered 201) behind `requireSuperAdmin`: one centre is added
   * under the next fresh id and, when the caller has an id, a `CREATE` row is
   * logged.
   */
  method CreateCentre(db: Db, caller: Identity, validation: Option<string>, nc: NewCentre, client: Client) returns (o: Outcome<Centre>)
    requires db.Valid()
    modifies db`serial, db`centres, db`logs
    ensures db.Valid()
    ensures RequireSuperAdmin(Some(caller)).Halt? ==>
      o == Stopped(RequireSuperAdmin(Some(caller)).status, RequireSuperAdmin(Some(caller)).message) && unchanged(db)
    ensures RequireSuperAdmin(Some(caller)) == Next && CreateCentreCheck(old(db.centres), validation, nc).Some? ==>
      o == Failed(CreateCentreCheck(old(db.centres), validation, nc).value) && unchanged(db)
    ensures RequireSuperAdmin(Some(caller)) == Next && CreateCentreCheck(old(db.centres), validation, nc).None? ==>
      var n := old(db.serial);
      var c := NewCentreRow(nc, db.defaultOrgStatus, db.clock).(id := Generated(n));
      && o == Served(c)
      && db.centres == old(db.centres) + [c]
      && db.serial == n + 1 + (if caller.id == "" then 0 else 1)
      && db.logs == CallerLog(old(db.logs), db.auditFails, caller.id,
           LogRow(Generated(n + 1), Some("CREATE"), Some("centres"), Some(c.id), Some(caller.id), IpOrEmpty(client), AgentOrEmpty(client),
                  Some(NewCentreDetails(nc)), None, db.clock, db.clock))
  {
    var g := RequireSuperAdmin(Some(caller));
    if g.Halt? {
      return Stopped(g.status, g.message);
    }
    var e := CreateCentreCheck(db.centres, validation, nc);
    if e.Some? {
      return Failed(e.value);
    }
    var c := db.CreateCentre(NewCentreRow(nc, db.defaultOrgStatus, db.clock));
    LogIfCaller(db, caller.id, "CREATE", "centres", c.id, IpOrEmpty(client), AgentOrEmpty(client), Some(NewCentreDetails(nc)));
    o := Served(c);
  }

  // ---------------------------------------------------------------- update

  /** The body of `PUT /:id` once it has passed validation; an absent member is left as it is. */
  datatype CentreUpdate = CentreUpdate(nom: Option<string>, codi: Option<string>, emailDomain: Option<string>, status: Option<OrgStatus>)

  /** `centre.update({ data: updateData })`: the given members replace the stored ones. */
  function UpdatedCentre(c: Centre, upd: CentreUpdate): (v: Centre)
    ensures v.id == c.id && v.createdAt == c.createdAt
    ensures v.nom == upd.nom.GetOr(c.nom) && v.codi == upd.codi.GetOr(c.codi)
    ensures v.emailDomain == upd.emailDomain.GetOr(c.emailDomain) && v.status == upd.status.GetOr(c.status)
  {
    c.(nom := upd.nom.GetOr(c.nom), codi := upd.codi.GetOr(c.codi), emailDomain := upd.emailDomain.GetOr(c.emailDomain),
       status := upd.status.GetOr(c.status))
  }

  /** `updateData` as the `dadesNoves` of the `UPDATE` row. */
  function CentreUpdateDetails(upd: CentreUpdate): Json {
    var d := PutText(PutText(PutText(map[], "nom", upd.nom), "codi", upd.codi), "emailDomain", upd.emailDomain);
    JObj(PutText(d, "status", if upd.status.Some? then Some(OrgStatusName(upd.status.value)) else None))
  }

  /**
   * The duplicate query of `PUT /:id`: another centre with the given code,
   * or with the given domain; only the members that were given (and are
   * not empty) are compared.
   */
  function Clashes(upd: CentreUpdate, id: string): Centre -> bool {
    (c: Centre) => c.id != id && ((TruthyStr(upd.codi) && c.codi == upd.codi.value)
                                  || (TruthyStr(upd.emailDomain) && c.emailDomain == upd.emailDomain.value))
  }

  /**
   * The checks of `PUT /:id`, in order: validation (400), the lookup (404),
   * then, only when a code or a domain is given, a clash with another
   * centre (409).
   */
  function UpdateCentreCheck(centres: seq<Centre>, validation: Option<string>, id: string, upd: CentreUpdate)
    : (r: Result<nat, AppError>)
    ensures validation.Some? ==> r == Err(CreateError(validation.value, Some(400)))
    ensures validation.None? && CentreById(centres, id).None? ==> r == Err(CreateError(CENTRE_NOT_FOUND, Some(404)))
    ensures validation.None? && CentreById(centres, id).Some? && !TruthyStr(upd.codi) && !TruthyStr(upd.emailDomain) ==>
      r == Ok(CentreById(centres, id).value)
    ensures r.Ok? <==>
      validation.None? && CentreById(centres, id).Some? && forall j :: 0 <= j < |centres| ==> !Clashes(upd, id)(centres[j])
    ensures r.Ok? ==> CentreById(centres, id) == Some(r.value)
  {
    if validation.Some? then Err(CreateError(validation.value, Some(400)))
    else match FindCentre(centres, id)
      case Err(e) => Err(e)
      case Ok(k) =>
        if !(TruthyStr(upd.codi) || TruthyStr(upd.emailDomain)) then Ok(k)
        else match FirstIndex(centres, Clashes(upd, id))
          case Some(j) => Err(CreateError(CENTRE_TAKEN, Some(409)))
          case None => Ok(k)
  }

  /** Resubmitting a centre's own code and domain is never a clash: the centre itself is excluded. */
  lemma OwnKeysNoClash(centres: seq<Centre>, k: nat, upd: CentreUpdate)
    requires KeysUnique(centres) && DistinctKeys(centres, IdOfCentre) && k < |centres|
    requires upd.codi.None? || upd.codi == Some(centres[k].codi)
    requires upd.emailDomain.None? || upd.emailDomain == Some(centres[k].emailDomain)
    ensures UpdateCentreCheck(centres, None, centres[k].id, upd).Ok?
  {
    forall j | 0 <= j < |centres| ensures !Clashes(upd, centres[k].id)(centres[j]) {
      if j != k {
        if j < k {
          assert centres[j].codi != centres[k].codi && centres[j].emailDomain != centres[k].emailDomain;
        } else {
          assert centres[k].codi != centres[j].codi && centres[k].emailDomain != centres[j].emailDomain;
        }
      }
    }
    assert CentreById(centres, centres[k].id).Some?;
  }

  /**
   * `PUT /:id` behind `requireSuperAdmin` and `validateId`: the centre is
   * rewritten in place and, when the caller has an id, an `UPDATE` row is
   * logged.
   */
  method UpdateCentre(db: Db, caller: Identity, validation: Option<string>, id: string, upd: CentreUpdate, client: Client)
    returns (o: Outcome<Centre>)
    requires db.Valid()
    modifies db`serial, db`centres, db`logs
    ensures db.Valid()
    ensures RequireSuperAdmin(Some(caller)).Halt? ==>
      o == Stopped(RequireSuperAdmin(Some(caller)).status, RequireSuperAdmin(Some(caller)).message) && unchanged(db)
    ensures RequireSuperAdmin(Some(caller)) == Next && |id| < 10 ==> o == Stopped(400, "ID invàlid") && unchanged(db)
    ensures RequireSuperAdmin(Some(caller)) == Next && |id| >= 10 && UpdateCentreCheck(old(db.centres), validation, id, upd).Err? ==>
      o == Failed(UpdateCentreCheck(old(db.centres), validation, id, upd).error) && unchanged(db)
    ensures RequireSuperAdmin(Some(caller)) == Next && |id| >= 10 && UpdateCentreCheck(old(db.centres), validation, id, upd).Ok? ==>
      var k := UpdateCentreCheck(old(db.centres), validation, id, upd).value;
      var v := UpdatedCentre(old(db.centres)[k], upd);
      && o == Served(v)
      && db.centres == old(db.centres)[k := v]
      && db.serial == old(db.serial) + (if caller.id == "" then 0 else 1)
      && db.logs == CallerLog(old(db.logs), db.auditFails, caller.id,
           LogRow(Generated(old(db.serial)), Some("UPDATE"), Some("centres"), Some(id), Some(caller.id), IpOrEmpty(client), AgentOrEmpty(client),
                  Some(CentreUpdateDetails(upd)), None, db.clock, db.clock))
  {
    var g := RequireSuperAdmin(Some(caller));
    if g.Halt? {
      return Stopped(g.status, g.message);
    }
    var gid := IdGate(id);
    if gid.Halt? {
      return Stopped(gid.status, gid.message);
    }
    var r := UpdateCentreCheck(db.centres, validation, id, upd);
    if r.Err? {
      return Failed(r.error);
    }
    var v := UpdatedCentre(db.centres[r.value], upd);
    db.UpdateCentre(r.value, v);
    LogIfCaller(db, caller.id, "UPDATE", "centres", id, IpOrEmpty(client), AgentOrEmpty(client), Some(CentreUpdateDetails(upd)));
    o := Served(v);
  }

  // ---------------------------------------------------------------- delete

  /** `where: { centreId }` on users and on cursos. */
  function UserInCentre(id: string): User -> bool {
    (u: User) => u.centreId == Some(id)
  }

  function CursInCentre(id: string): Curs -> bool {
    (c: Curs) => c.centreId == id
  }

  /** `_count` of a centre: whether any user or curs belongs to it. */
  predicate HasMembers(users: seq<User>, cursos: seq<Curs>, id: string) {
    Count(users, UserInCentre(id)) > 0 || Count(cursos, CursInCentre(id)) > 0
  }

  /** The checks of `DELETE /:id`, in order: the lookup (404), then any user or curs of the centre (400). */
  function DeleteCentreCheck(centres: seq<Centre>, users: seq<User>, cursos: seq<Curs>, id: string): (r: Result<nat, AppError>)
    ensures CentreById(centres, id).None? ==> r == Err(CreateError(CENTRE_NOT_FOUND, Some(404)))
    ensures CentreById(centres, id).Some? && HasMembers(users, cursos, id) ==> r == Err(CreateError(CENTRE_IN_USE, Some(400)))
    ensures r.Ok? <==> CentreById(centres, id).Some? && !HasMembers(users, cursos, id)
    ensures r.Ok? ==> CentreById(centres, id) == Some(r.value)
  {
    match FindCentre(centres, id)
    case Err(e) => Err(e)
    case Ok(k) => if HasMembers(users, cursos, id) then Err(CreateError(CENTRE_IN_USE, Some(400))) else Ok(k)
  }

  /** A centre that passes the delete check has no user and no curs pointing at it. */
  lemma DeletedCentreUnreferenced(centres: seq<Centre>, users: seq<User>, cursos: seq<Curs>, id: string)
    requires DeleteCentreCheck(centres, users, cursos, id).Ok?
    ensures forall i :: 0 <= i < |users| ==> users[i].centreId != Some(id)
    ensures forall i :: 0 <= i < |cursos| ==> cursos[i].centreId != id
  {
  }

  /** Removing row `k` of a keyed table removes exactly that centre: its id is gone and every other centre remains. */
  lemma DeletedCentreGone(centres: seq<Centre>, k: nat)
    requires DistinctKeys(centres, IdOfCentre) && k < |centres|
    ensures CentreById(RemoveAt(centres, k), centres[k].id).None?
    ensures forall j :: 0 <= j < |centres| && j != k ==> centres[j] in RemoveAt(centres, k)
  {
    RemoveAtExactly(centres, IdOfCentre, k);
  }

  /** The `dadesNoves` of the `DELETE` row. */
  function DeletedDetails(c: Centre): Json {
    JObj(map["nom" := JStr(c.nom), "codi" := JStr(c.codi)])
  }

  /**
   * `DELETE /:id` behind `requireSuperAdmin` and `validateId`: exactly that
   * row is removed and, when the caller has an id, a `DELETE` row is logged
   * with `req.ip` as it is.
   */
  method DeleteCentre(db: Db, caller: Identity, id: string, client: Client) returns (o: Outcome<string>)
    requires db.Valid()
    modifies db`serial, db`centres, db`logs
    ensures db.Valid()
    ensures RequireSuperAdmin(Some(caller)).Halt? ==>
      o == Stopped(RequireSuperAdmin(Some(caller)).status, RequireSuperAdmin(Some(caller)).message) && unchanged(db)
    ensures RequireSuperAdmin(Some(caller)) == Next && |id| < 10 ==> o == Stopped(400, "ID invàlid") && unchanged(db)
    ensures RequireSuperAdmin(Some(caller)) == Next && |id| >= 10 && DeleteCentreCheck(old(db.centres), db.users, db.cursos, id).Err? ==>
      o == Failed(DeleteCentreCheck(old(db.centres), db.users, db.cursos, id).error) && unchanged(db)
    ensures RequireSuperAdmin(Some(caller)) == Next && |id| >= 10 && DeleteCentreCheck(old(db.centres), db.users, db.cursos, id).Ok? ==>
      var k := DeleteCentreCheck(old(db.centres), db.users, db.cursos, id).value;
      && o == Served("Centre eliminat correctament")
      && db.centres == RemoveAt(old(db.centres), k)
      && db.serial == old(db.serial) + (if caller.id == "" then 0 else 1)
      && db.logs == CallerLog(old(db.logs), db.auditFails, caller.id,
           LogRow(Generated(old(db.serial)), Some("DELETE"), Some("centres"), Some(id), Some(caller.id), client.ip, AgentOrEmpty(client),
                  Some(DeletedDetails(old(db.centres)[k])), None, db.clock, db.clock))
  {
    var g := RequireSuperAdmin(Some(caller));
    if g.Halt? {
      return Stopped(g.status, g.message);
    }
    var gid := IdGate(id);
    if gid.Halt? {
      return Stopped(gid.status, gid.message);
    }
    var r := DeleteCentreCheck(db.centres, db.users, db.cursos, id);
    if r.Err? {
      return Failed(r.error);
    }
    var details := DeletedDetails(db.centres[r.value]);
    db.DeleteCentre(r.value);
    LogIfCaller(db, caller.id, "DELETE", "centres", id, client.ip, AgentOrEmpty(client), Some(details));
    o := Served("Centre eliminat correctament");
  }

  // ---------------------------------------------------------------- statistics

  /** A total and its active part. */
  datatype Tally = Tally(total: nat, active: nat)

  datatype CentreStats = CentreStats(centre: Centre, usuaris: Tally, cursos: Tally, assignatures: nat, professors: nat, alumnes: nat)

  function ActiveUserInCentre(id: string): User -> bool {
    (u: User) => u.centreId == Some(id) && u.status == Active
  }

  function ActiveCursInCentre(id: string): Curs -> bool {
    (c: Curs) => c.centreId == id && c.status == OrgActive
  }

  /** `where: { curs: { centreId } }`: a member whose curs belongs to the centre. */
  function MemberInCentre(cursos: seq<Curs>, id: string): Member -> bool {
    (m: Member) => CursById(cursos, m.cursId).Some? && cursos[CursById(cursos, m.cursId).value].centreId == id
  }

  function UserTally(users: seq<User>, id: string): (t: Tally)
    ensures t.active <= t.total <= |users|
  {
    CountMonotone(users, UserInCentre(id), ActiveUserInCentre(id));
    Tally(Count(users, UserInCentre(id)), Count(users, ActiveUserInCentre(id)))
  }

  function CursTally(cursos: seq<Curs>, id: string): (t: Tally)
    ensures t.active <= t.total <= |cursos|
  {
    CountMonotone(cursos, CursInCentre(id), ActiveCursInCentre(id));
    Tally(Count(cursos, CursInCentre(id)), Count(cursos, ActiveCursInCentre(id)))
  }

  /** `GET /:id/estadistiques`: `validateId`, the lookup, then the counts; no tenant check. */
  function CentreStatistics(centres: seq<Centre>, users: seq<User>, cursos: seq<Curs>, assignatures: seq<Member>,
                            professors: seq<Member>, alumnes: seq<Member>, id: string): (o: Outcome<CentreStats>)
    ensures |id| < 10 ==> o == Stopped(400, "ID invàlid")
    ensures |id| >= 10 && CentreById(centres, id).None? ==> o == Failed(CreateError(CENTRE_NOT_FOUND, Some(404)))
    ensures o.Served? <==> |id| >= 10 && CentreById(centres, id).Some?
    ensures o.Served? ==>
      && o.value.centre.id == id
      && o.value.usuaris.active <= o.value.usuaris.total <= |users|
      && o.value.cursos.active <= o.value.cursos.total <= |cursos|
      && o.value.assignatures <= |assignatures| && o.value.professors <= |professors| && o.value.alumnes <= |alumnes|
  {
    var g := IdGate(id);
    if g.Halt? then Stopped(g.status, g.message)
    else match FindCentre(centres, id)
      case Err(e) => Failed(e)
      case Ok(k) =>
        Served(CentreStats(centres[k], UserTally(users, id), CursTally(cursos, id), Count(assignatures, MemberInCentre(cursos, id)),
                           Count(professors, MemberInCentre(cursos, id)), Count(alumnes, MemberInCentre(cursos, id))))
  }

  /** A centre that can be deleted has no members through its cursos either: it has no cursos at all. */
  lemma DeletableCentreHasNoMembers(centres: seq<Centre>, users: seq<User>, cursos: seq<Curs>, members: seq<Member>, id: string)
    requires DeleteCentreCheck(centres, users, cursos, id).Ok?
    ensures Count(members, MemberInCentre(cursos, id)) == 0
  {
    FilterNone(members, MemberInCentre(cursos, id));
  }
}
