/**
 * The `/api/users` routes, all behind `authMiddleware` (so the caller is
 * always known): the tenant-scoped list, lookup by id, and create, update and
 * delete with their ordered checks. Every role below the superadmin sees
 * only its own centre, and no one can hand out a role above their own.
 */
module UsersRoutes {
  import opened Wrappers
  import opened Strings
  import opened Js
  import opened Seqs
  import opened Domain
  import opened Store
  import opened Http
  import opened ActivityLog
  import opened ErrorHandler
  import opened AuthMiddleware

  const USER_NOT_FOUND := "Usuari no trobat"
  const NO_USER_ACCESS := "No tens accés a aquest usuari"
  const NO_CREATE_SUPERADMIN := "No tens permisos per crear superadministradors"
  const NO_CREATE_ADMIN_CENTRE := "No tens permisos per crear administradors de centre"
  const NO_ASSIGN_SUPERADMIN := "No tens permisos per assignar rol de superadministrador"
  const NO_ASSIGN_ADMIN_CENTRE := "No tens permisos per assignar rol d'administrador de centre"
  const EMAIL_EXISTS := "Ja existeix un usuari amb aquest email"
  const CENTRE_NOT_FOUND := "Centre no trobat"
  const NO_CENTRE_ACCESS := "No tens accés a aquest centre"
  const CURS_NOT_FOUND := "Curs no trobat"
  const NO_CURS_ACCESS := "No tens accés a aquest curs"
  const NO_SELF_DELETE := "No pots eliminar el teu propi compte"
  const NO_DELETE_SUPERADMIN := "No tens permisos per eliminar superadministradors"

  // ---------------------------------------------------------------- list

  /** The `where` of the list query; an absent member does not filter. */
  datatype UserWhere = UserWhere(search: Option<string>, role: Option<string>, status: Option<string>, centreId: Option<string>)

  /**
   * The filters the query asks for, where every role but the superadmin has
   * its own centre in place of whatever centre the query names (and a caller
   * without a centre, `undefined`, has no centre filter at all).
   */
  function UserWhereOf(query: map<string, string>, caller: Identity): UserWhere {
    UserWhere(GivenParam(query, "search"), GivenParam(query, "role"), GivenParam(query, "status"),
              if caller.role == SuperAdmin then GivenParam(query, "centreId") else caller.centreId)
  }

  /** The `where` object, built by successive assignments as the list handler does. */
  method BuildUserWhere(query: map<string, string>, caller: Identity) returns (w: UserWhere)
    ensures w == UserWhereOf(query, caller)
  {
    w := UserWhere(None, None, None, None);
    if GivenParam(query, "search").Some? {
      w := w.(search := GivenParam(query, "search"));
    }
    if GivenParam(query, "role").Some? {
      w := w.(role := GivenParam(query, "role"));
    }
    if GivenParam(query, "status").Some? {
      w := w.(status := GivenParam(query, "status"));
    }
    if GivenParam(query, "centreId").Some? {
      w := w.(centreId := GivenParam(query, "centreId"));
    }
    if caller.role != SuperAdmin {
      w := w.(centreId := caller.centreId);
    }
  }

  /** Whether a user satisfies the `where`: the search in the email or either name, ignoring case, and equal role, status and centre. */
  predicate MatchesWhere(w: UserWhere, u: User) {
    (w.search.None? || ContainsInsensitive(u.email, w.search.value) || ContainsInsensitive(u.firstName, w.search.value)
                    || ContainsInsensitive(u.lastName, w.search.value))
    && (w.role.None? || RoleName(u.role) == w.role.value)
    && (w.status.None? || StatusName(u.status) == w.status.value)
    && (w.centreId.None? || u.centreId == w.centreId)
  }

  function UserMatches(w: UserWhere): User -> bool {
    (u: User) => MatchesWhere(w, u)
  }

  /**
   * `GET /` after `validatePagination`, with the page and limit it wrote
   * back: the matching users, newest first, one page of them, and the count.
   */
  method ListUsers(db: Db, caller: Identity, query: map<string, string>, page: nat, limit: nat) returns (l: Listing<User>)
    requires page >= 1 && limit >= 1
    ensures l == ListPage(Filter(db.users, UserMatches(UserWhereOf(query, caller))), page, limit)
  {
    var w := BuildUserWhere(query, caller);
    l := ListPage(Filter(db.users, UserMatches(w)), page, limit);
  }

  /** Below the superadmin, a caller with a centre lists only users of that centre, whatever the query says. */
  lemma ListStaysInCentre(users: seq<User>, caller: Identity, query: map<string, string>, page: nat, limit: nat)
    requires page >= 1 && limit >= 1
    requires caller.role != SuperAdmin && caller.centreId.Some?
    ensures var l := ListPage(Filter(users, UserMatches(UserWhereOf(query, caller))), page, limit);
      forall i :: 0 <= i < |l.data| ==> l.data[i].centreId == caller.centreId
  {
    ListedSatisfy(users, UserMatches(UserWhereOf(query, caller)), page, limit);
  }

  /** Below the superadmin, the `centreId` parameter is ignored: the answer is the same whatever centre it names. */
  lemma CentreParamIgnored(caller: Identity, query: map<string, string>, c: string)
    requires caller.role != SuperAdmin
    ensures UserWhereOf(query["centreId" := c], caller) == UserWhereOf(query, caller)
  {
    assert GivenParam(query["centreId" := c], "search") == GivenParam(query, "search");
    assert GivenParam(query["centreId" := c], "role") == GivenParam(query, "role");
    assert GivenParam(query["centreId" := c], "status") == GivenParam(query, "status");
  }

  // ---------------------------------------------------------------- get

  /** The route parameter `:id` as `validateId` sees it. */
  function IdParams(id: string): map<string, string> {
    map["id" := id]
  }

  /** `GET /:id`: `validateId`, then 404 for an unknown id, then 403 for a user of another centre. */
  function GetUser(users: seq<User>, caller: Identity, id: string): (o: Outcome<User>)
    ensures |id| < 10 ==> o == Stopped(400, "ID invàlid")
    ensures |id| >= 10 && UserById(users, id).None? ==> o == Failed(CreateError(USER_NOT_FOUND, Some(404)))
    ensures |id| >= 10 && UserById(users, id).Some? && !SeesCentre(caller, users[UserById(users, id).value].centreId) ==>
      o == Failed(CreateError(NO_USER_ACCESS, Some(403)))
    ensures o.Served? <==> |id| >= 10 && UserById(users, id).Some? && SeesCentre(caller, users[UserById(users, id).value].centreId)
    ensures o.Served? ==> o.value in users && o.value.id == id
  {
    var g := ValidateId(IdParams(id));
    if g.Halt? then Stopped(g.status, g.message)
    else match UserById(users, id)
      case None => Failed(CreateError(USER_NOT_FOUND, Some(404)))
      case Some(k) =>
        if !SeesCentre(caller, users[k].centreId) then Failed(CreateError(NO_USER_ACCESS, Some(403)))
        else Served(users[k])
  }

  // ---------------------------------------------------------------- references

  /**
   * The reference checks shared by create and update: a given centre must
   * exist (404) and be the caller's (403), then a given curs must exist (404)
   * and belong to the caller's centre (403). An empty reference is not checked.
   */
  function ReferenceCheck(centres: seq<Centre>, cursos: seq<Curs>, caller: Identity, centreId: Option<string>,
                          cursId: Option<string>): (r: Option<AppError>)
    ensures r.None? <==> ReferencesVisible(centres, cursos, caller, centreId, cursId)
    ensures r.Some? ==> r.value.statusCode in {Some(403), Some(404)}
  {
    if TruthyStr(centreId) && CentreById(centres, centreId.value).None? then Some(CreateError(CENTRE_NOT_FOUND, Some(404)))
    else if TruthyStr(centreId) && !SeesCentre(caller, centreId) then Some(CreateError(NO_CENTRE_ACCESS, Some(403)))
    else if TruthyStr(cursId) && CursById(cursos, cursId.value).None? then Some(CreateError(CURS_NOT_FOUND, Some(404)))
    else if TruthyStr(cursId) && !SeesCentre(caller, Some(cursos[CursById(cursos, cursId.value).value].centreId)) then
      Some(CreateError(NO_CURS_ACCESS, Some(403)))
    else None
  }

  /** A given centre exists and is visible to the caller, and a given curs exists and lies in a centre visible to the caller. */
  predicate ReferencesVisible(centres: seq<Centre>, cursos: seq<Curs>, caller: Identity, centreId: Option<string>, cursId: Option<string>) {
    (TruthyStr(centreId) ==> CentreById(centres, centreId.value).Some? && SeesCentre(caller, centreId))
    && (TruthyStr(cursId) ==> CursById(cursos, cursId.value).Some? && SeesCentre(caller, Some(cursos[CursById(cursos, cursId.value).value].centreId)))
  }

  // ---------------------------------------------------------------- create

  /** The body of `POST /` once it has passed validation. */
  datatype NewUser = NewUser(email: string, password: string, firstName: string, lastName: string, role: Role,
                             centreId: Option<string>, cursId: Option<string>)

  /** Whether a caller may hand out a role: only a superadmin makes superadmins, and a centre admin cannot make centre admins. */
  predicate MayGrant(caller: Role, role: Role) {
    (caller != SuperAdmin ==> role != SuperAdmin) && !(caller == AdminCentre && role == AdminCentre)
  }

  /**
   * The checks of `POST /`, in order: the first validation message (400),
   * the two role rules (403) before the email (409), then the references.
   */
  function CreateUserCheck(users: seq<User>, centres: seq<Centre>, cursos: seq<Curs>, caller: Identity,
                           validation: Option<string>, nu: NewUser): (r: Option<AppError>)
    ensures validation.Some? ==> r == Some(CreateError(validation.value, Some(400)))
    ensures validation.None? && caller.role != SuperAdmin && nu.role == SuperAdmin ==> r == Some(CreateError(NO_CREATE_SUPERADMIN, Some(403)))
    ensures validation.None? && caller.role == AdminCentre && nu.role == AdminCentre ==> r == Some(CreateError(NO_CREATE_ADMIN_CENTRE, Some(403)))
    ensures validation.None? && MayGrant(caller.role, nu.role) && UserByEmail(users, nu.email).Some? ==>
      r == Some(CreateError(EMAIL_EXISTS, Some(409)))
    ensures r.None? <==>
      validation.None? && MayGrant(caller.role, nu.role) && UserByEmail(users, nu.email).None?
      && ReferencesVisible(centres, cursos, caller, nu.centreId, nu.cursId)
  {
    if validation.Some? then Some(CreateError(validation.value, Some(400)))
    else if caller.role != SuperAdmin && nu.role == SuperAdmin then Some(CreateError(NO_CREATE_SUPERADMIN, Some(403)))
    else if caller.role == AdminCentre && nu.role == AdminCentre then Some(CreateError(NO_CREATE_ADMIN_CENTRE, Some(403)))
    else if UserByEmail(users, nu.email).Some? then Some(CreateError(EMAIL_EXISTS, Some(409)))
    else ReferenceCheck(centres, cursos, caller, nu.centreId, nu.cursId)
  }

  /**
   * Behind `requireAdminCentre`, a successful create is made by a superadmin
   * or makes a curs admin: no one creates a user above or beside their own role.
   */
  lemma CreateNeverEscalates(users: seq<User>, centres: seq<Centre>, cursos: seq<Curs>, caller: Identity,
                             validation: Option<string>, nu: NewUser)
    requires RequireAdminCentre(Some(caller)) == Next
    requires CreateUserCheck(users, centres, cursos, caller, validation, nu).None?
    ensures caller.role == SuperAdmin || (caller.role == AdminCentre && nu.role == AdminCurs)
  {
    RoleGatesNest(Some(caller));
  }

  /** The row `user.create` writes: the hashed password, the default status, no login yet. */
  function NewUserRow(id: string, nu: NewUser, status: UserStatus, now: nat): User {
    User(id, nu.email, Bcrypt(nu.password), nu.firstName, nu.lastName, nu.role, status, nu.centreId, nu.cursId, None, now, None)
  }

  /** The `dadesNoves` of the `CREATE` row: never the password; `undefined` references are left out. */
  function NewUserDetails(nu: NewUser): map<string, Json> {
    var base := map["email" := JStr(nu.email), "firstName" := JStr(nu.firstName), "lastName" := JStr(nu.lastName),
                    "role" := JStr(RoleName(nu.role))];
    PutText(PutText(base, "centreId", nu.centreId), "cursId", nu.cursId)
  }

  /** `req.ip || ''` and `req.get('User-Agent') || ''`. */
  function IpOrEmpty(client: Client): Option<string> { OrStr(client.ip, Some("")) }
  function AgentOrEmpty(client: Client): Option<string> { OrStr(client.userAgent, Some("")) }

  /**
   * `POST /` (answered 201) behind `requireAdminCentre`: the user is created
   * under the next fresh id and, when the caller has an id, a `CREATE` row is
   * logged.
   */
  method CreateUser(db: Db, caller: Identity, validation: Option<string>, nu: NewUser, client: Client) returns (o: Outcome<User>)
    requires db.Valid()
    modifies db`serial, db`users, db`logs
    ensures db.Valid()
    ensures RequireAdminCentre(Some(caller)).Halt? ==>
      o == Stopped(RequireAdminCentre(Some(caller)).status, RequireAdminCentre(Some(caller)).message) && unchanged(db)
    ensures RequireAdminCentre(Some(caller)) == Next && CreateUserCheck(old(db.users), db.centres, db.cursos, caller, validation, nu).Some? ==>
      o == Failed(CreateUserCheck(old(db.users), db.centres, db.cursos, caller, validation, nu).value) && unchanged(db)
    ensures RequireAdminCentre(Some(caller)) == Next && CreateUserCheck(old(db.users), db.centres, db.cursos, caller, validation, nu).None? ==>
      var n := old(db.serial);
      var u := NewUserRow(Generated(n), nu, db.defaultStatus, db.clock);
      && o == Served(u)
      && db.users == old(db.users) + [u]
      && db.serial == n + 1 + (if caller.id == "" then 0 else 1)
      && db.logs == CallerLog(old(db.logs), db.auditFails, caller.id,
           LogRow(Generated(n + 1), Some("CREATE"), Some("users"), Some(u.id), Some(caller.id), IpOrEmpty(client), AgentOrEmpty(client),
                  Some(JObj(NewUserDetails(nu))), None, db.clock, db.clock))
  {
    var g := RequireAdminCentre(Some(caller));
    if g.Halt? {
      return Stopped(g.status, g.message);
    }
    var c := CreateUserCheck(db.users, db.centres, db.cursos, caller, validation, nu);
    if c.Some? {
      return Failed(c.value);
    }
    var u := db.CreateUser(NewUserRow(Generated(db.serial), nu, db.defaultStatus, db.clock));
    LogIfCaller(db, caller.id, "CREATE", "users", u.id, IpOrEmpty(client), AgentOrEmpty(client), Some(JObj(NewUserDetails(nu))));
    o := Served(u);
  }

  // ---------------------------------------------------------------- update

  /**
   * The body of `PUT /:id` once it has passed validation; an absent member
   * is left as it is. The body is written to the row as it came, so `email`
   * and `password`, which no validator looks at, are columns it can set too.
   */
  datatype UserUpdate = UserUpdate(firstName: Option<string>, lastName: Option<string>, role: Option<Role>,
                                   status: Option<UserStatus>, centreId: Option<string>, cursId: Option<string>,
                                   email: Option<string>, password: Option<string>)

  /**
   * `user.update({ data: updateData })`: the given members replace the
   * stored ones. A given password lands in the column unhashed.
   */
  function Updated(u: User, upd: UserUpdate): (v: User)
    ensures v.id == u.id && v.lastLogin == u.lastLogin && v.createdAt == u.createdAt
    ensures v.email == upd.email.GetOr(u.email)
    ensures v.password == (if upd.password.Some? then Raw(upd.password.value) else u.password)
    ensures v.role == (if upd.role.Some? then upd.role.value else u.role)
    ensures v.status == (if upd.status.Some? then upd.status.value else u.status)
    ensures v.centreId == (if upd.centreId.Some? then upd.centreId else u.centreId)
  {
    u.(firstName := upd.firstName.GetOr(u.firstName), lastName := upd.lastName.GetOr(u.lastName),
       role := upd.role.GetOr(u.role), status := upd.status.GetOr(u.status),
       centreId := if upd.centreId.Some? then upd.centreId else u.centreId,
       cursId := if upd.cursId.Some? then upd.cursId else u.cursId,
       email := upd.email.GetOr(u.email),
       password := if upd.password.Some? then Raw(upd.password.value) else u.password)
  }

  /** `updateData` as the `dadesNoves` of the `UPDATE` row: the members that were given. */
  function UpdateDetails(upd: UserUpdate): map<string, Json> {
    var d := PutText(PutText(map[], "firstName", upd.firstName), "lastName", upd.lastName);
    var d := PutText(d, "role", if upd.role.Some? then Some(RoleName(upd.role.value)) else None);
    var d := PutText(d, "status", if upd.status.Some? then Some(StatusName(upd.status.value)) else None);
    var d := PutText(PutText(d, "centreId", upd.centreId), "cursId", upd.cursId);
    PutText(PutText(d, "email", upd.email), "password", upd.password)
  }

  /**
   * A password sent to `PUT /:id` locks the user out: no plaintext matches
   * the unhashed column any more, and the password itself is kept in the
   * `dadesNoves` of the `UPDATE` row.
   */
  lemma PasswordUpdateLocksOut(u: User, upd: UserUpdate, plain: string)
    requires upd.password.Some?
    ensures !PasswordMatches(plain, Updated(u, upd).password)
    ensures Field(UpdateDetails(upd), "password") == Some(JStr(upd.password.value))
  {
  }

  /** The email of row `k` would clash, on the write, with another user's. */
  predicate EmailTakenByOther(users: seq<User>, k: nat, email: string) {
    UserByEmail(users, email).Some? && UserByEmail(users, email).value != k
  }

  /**
   * The checks of `PUT /:id`, in order: validation (400), the user (404),
   * its centre (403), the two role rules on the new role (403), then the
   * references. The target's own role is not consulted. Last, the write
   * itself fails on the unique email when another user has the given one
   * (500). The result is the row.
   */
  function UpdateUserCheck(users: seq<User>, centres: seq<Centre>, cursos: seq<Curs>, caller: Identity,
                           validation: Option<string>, id: string, upd: UserUpdate): (r: Result<nat, AppError>)
    ensures validation.Some? ==> r == Err(CreateError(validation.value, Some(400)))
    ensures validation.None? && UserById(users, id).None? ==> r == Err(CreateError(USER_NOT_FOUND, Some(404)))
    ensures validation.None? && UserById(users, id).Some? && !SeesCentre(caller, users[UserById(users, id).value].centreId) ==>
      r == Err(CreateError(NO_USER_ACCESS, Some(403)))
    ensures r.Ok? <==>
      validation.None? && UserById(users, id).Some? && SeesCentre(caller, users[UserById(users, id).value].centreId)
      && (upd.role.Some? ==> MayGrant(caller.role, upd.role.value))
      && ReferencesVisible(centres, cursos, caller, upd.centreId, upd.cursId)
      && !(upd.email.Some? && EmailTakenByOther(users, UserById(users, id).value, upd.email.value))
    ensures validation.None? && UserById(users, id).Some? && SeesCentre(caller, users[UserById(users, id).value].centreId)
            && (upd.role.Some? ==> MayGrant(caller.role, upd.role.value))
            && ReferencesVisible(centres, cursos, caller, upd.centreId, upd.cursId)
            && upd.email.Some? && EmailTakenByOther(users, UserById(users, id).value, upd.email.value) ==>
      r == Err(ConstraintError())
    ensures r.Ok? ==> UserById(users, id) == Some(r.value)
  {
    if validation.Some? then Err(CreateError(validation.value, Some(400)))
    else match UserById(users, id)
      case None => Err(CreateError(USER_NOT_FOUND, Some(404)))
      case Some(k) =>
        if !SeesCentre(caller, users[k].centreId) then Err(CreateError(NO_USER_ACCESS, Some(403)))
        else if caller.role != SuperAdmin && upd.role == Some(SuperAdmin) then Err(CreateError(NO_ASSIGN_SUPERADMIN, Some(403)))
        else if caller.role == AdminCentre && upd.role == Some(AdminCentre) then Err(CreateError(NO_ASSIGN_ADMIN_CENTRE, Some(403)))
        else match ReferenceCheck(centres, cursos, caller, upd.centreId, upd.cursId)
          case Some(e) => Err(e)
          case None =>
            if upd.email.Some? && EmailTakenByOther(users, k, upd.email.value) then Err(ConstraintError())
            else Ok(k)
  }

  /** After a successful update by a caller below the superadmin, the user is still no superadmin unless it was one before. */
  lemma UpdateNeverPromotesToSuperAdmin(users: seq<User>, centres: seq<Centre>, cursos: seq<Curs>, caller: Identity,
                                        validation: Option<string>, id: string, upd: UserUpdate)
    requires caller.role != SuperAdmin
    requires UpdateUserCheck(users, centres, cursos, caller, validation, id, upd).Ok?
    ensures var k := UpdateUserCheck(users, centres, cursos, caller, validation, id, upd).value;
      Updated(users[k], upd).role == SuperAdmin ==> users[k].role == SuperAdmin
  {
  }

  /**
   * `PUT /:id` behind `requireAdminCentre` and `validateId`: the row is
   * rewritten and, when the caller has an id, an `UPDATE` row is logged.
   */
  method UpdateUser(db: Db, caller: Identity, validation: Option<string>, id: string, upd: UserUpdate, client: Client)
    returns (o: Outcome<User>)
    requires db.Valid()
    modifies db`serial, db`users, db`logs
    ensures db.Valid()
    ensures RequireAdminCentre(Some(caller)).Halt? ==>
      o == Stopped(RequireAdminCentre(Some(caller)).status, RequireAdminCentre(Some(caller)).message) && unchanged(db)
    ensures RequireAdminCentre(Some(caller)) == Next && |id| < 10 ==> o == Stopped(400, "ID invàlid") && unchanged(db)
    ensures RequireAdminCentre(Some(caller)) == Next && |id| >= 10 && UpdateUserCheck(old(db.users), db.centres, db.cursos, caller, validation, id, upd).Err? ==>
      o == Failed(UpdateUserCheck(old(db.users), db.centres, db.cursos, caller, validation, id, upd).error) && unchanged(db)
    ensures RequireAdminCentre(Some(caller)) == Next && |id| >= 10 && UpdateUserCheck(old(db.users), db.centres, db.cursos, caller, validation, id, upd).Ok? ==>
      var k := UpdateUserCheck(old(db.users), db.centres, db.cursos, caller, validation, id, upd).value;
      var v := Updated(old(db.users)[k], upd);
      && o == Served(v)
      && db.users == old(db.users)[k := v]
      && db.serial == old(db.serial) + (if caller.id == "" then 0 else 1)
      && db.logs == CallerLog(old(db.logs), db.auditFails, caller.id,
           LogRow(Generated(old(db.serial)), Some("UPDATE"), Some("users"), Some(id), Some(caller.id), IpOrEmpty(client), AgentOrEmpty(client),
                  Some(JObj(UpdateDetails(upd))), None, db.clock, db.clock))
  {
    var g := RequireAdminCentre(Some(caller));
    if g.Halt? {
      return Stopped(g.status, g.message);
    }
    var gid := ValidateId(IdParams(id));
    if gid.Halt? {
      return Stopped(gid.status, gid.message);
    }
    var c := UpdateUserCheck(db.users, db.centres, db.cursos, caller, validation, id, upd);
    if c.Err? {
      return Failed(c.error);
    }
    var v := Updated(db.users[c.value], upd);
    db.UpdateUser(c.value, v);
    LogIfCaller(db, caller.id, "UPDATE", "users", id, IpOrEmpty(client), AgentOrEmpty(client), Some(JObj(UpdateDetails(upd))));
    o := Served(v);
  }

  // ---------------------------------------------------------------- delete

  /**
   * The checks of `DELETE /:id`, in order: the user (404), its centre (403),
   * not the caller (400), and a superadmin only by a superadmin (403). The
   * result is the row.
   */
  function DeleteUserCheck(users: seq<User>, caller: Identity, id: string): (r: Result<nat, AppError>)
    ensures UserById(users, id).None? ==> r == Err(CreateError(USER_NOT_FOUND, Some(404)))
    ensures UserById(users, id).Some? && !SeesCentre(caller, users[UserById(users, id).value].centreId) ==>
      r == Err(CreateError(NO_USER_ACCESS, Some(403)))
    ensures UserById(users, id).Some? && SeesCentre(caller, users[UserById(users, id).value].centreId) && id == caller.id ==>
      r == Err(CreateError(NO_SELF_DELETE, Some(400)))
    ensures r.Ok? <==>
      UserById(users, id).Some? && SeesCentre(caller, users[UserById(users, id).value].centreId) && id != caller.id
      && (users[UserById(users, id).value].role == SuperAdmin ==> caller.role == SuperAdmin)
    ensures r.Ok? ==> UserById(users, id) == Some(r.value)
  {
    match UserById(users, id)
    case None => Err(CreateError(USER_NOT_FOUND, Some(404)))
    case Some(k) =>
      if !SeesCentre(caller, users[k].centreId) then Err(CreateError(NO_USER_ACCESS, Some(403)))
      else if users[k].id == caller.id then Err(CreateError(NO_SELF_DELETE, Some(400)))
      else if users[k].role == SuperAdmin && caller.role != SuperAdmin then Err(CreateError(NO_DELETE_SUPERADMIN, Some(403)))
      else Ok(k)
  }

  /** The `dadesNoves` of the `DELETE` row: the email and the names of the removed user. */
  function DeletedDetails(u: User): map<string, Json> {
    map["email" := JStr(u.email), "firstName" := JStr(u.firstName), "lastName" := JStr(u.lastName)]
  }

  /**
   * `DELETE /:id` behind `requireAdminCentre` and `validateId`: exactly that
   * row is removed, its sessions with it, and, when the caller has an id, a
   * `DELETE` row is logged.
   */
  method DeleteUser(db: Db, caller: Identity, id: string, client: Client) returns (o: Outcome<string>)
    requires db.Valid()
    modifies db`serial, db`users, db`sessions, db`logs
    ensures db.Valid()
    ensures RequireAdminCentre(Some(caller)).Halt? ==>
      o == Stopped(RequireAdminCentre(Some(caller)).status, RequireAdminCentre(Some(caller)).message) && unchanged(db)
    ensures RequireAdminCentre(Some(caller)) == Next && |id| < 10 ==> o == Stopped(400, "ID invàlid") && unchanged(db)
    ensures RequireAdminCentre(Some(caller)) == Next && |id| >= 10 && DeleteUserCheck(old(db.users), caller, id).Err? ==>
      o == Failed(DeleteUserCheck(old(db.users), caller, id).error) && unchanged(db)
    ensures RequireAdminCentre(Some(caller)) == Next && |id| >= 10 && DeleteUserCheck(old(db.users), caller, id).Ok? ==>
      var k := DeleteUserCheck(old(db.users), caller, id).value;
      && o == Served("Usuari eliminat correctament")
      && db.users == RemoveAt(old(db.users), k)
      && db.sessions == SessionsNotOf(old(db.sessions), id)
      && db.serial == old(db.serial) + (if caller.id == "" then 0 else 1)
      && db.logs == CallerLog(old(db.logs), db.auditFails, caller.id,
           LogRow(Generated(old(db.serial)), Some("DELETE"), Some("users"), Some(id), Some(caller.id), IpOrEmpty(client), AgentOrEmpty(client),
                  Some(JObj(DeletedDetails(old(db.users)[k]))), None, db.clock, db.clock))
  {
    var g := RequireAdminCentre(Some(caller));
    if g.Halt? {
      return Stopped(g.status, g.message);
    }
    var gid := ValidateId(IdParams(id));
    if gid.Halt? {
      return Stopped(gid.status, gid.message);
    }
    var c := DeleteUserCheck(db.users, caller, id);
    if c.Err? {
      return Failed(c.error);
    }
    var details := DeletedDetails(db.users[c.value]);
    db.DeleteUser(c.value);
    LogIfCaller(db, caller.id, "DELETE", "users", id, IpOrEmpty(client), AgentOrEmpty(client), Some(JObj(details)));
    o := Served("Usuari eliminat correctament");
  }

  /** Once a user row is removed, no request authenticates as that user, whatever sessions remain. */
  lemma DeletedUserSignedOut(authorization: Option<string>, jwt: map<string, SignedToken>, users: seq<User>,
                             sessions: seq<Session>, now: nat, k: nat)
    requires DistinctKeys(users, IdOfUser) && k < |users|
    ensures var r := Authenticate(authorization, jwt, RemoveAt(users, k), sessions, now);
      r.Pass? ==> r.who.id != users[k].id
  {
    var rest := RemoveAt(users, k);
    var r := Authenticate(authorization, jwt, rest, sessions, now);
    if r.Pass? {
      var claims := Verify(jwt, ExtractToken(authorization).value, AccessSecret, now).value;
      var j := UserById(rest, claims.userId).value;
      assert r.who == IdentityOf(rest[j]);
      var at := if j < k then j else j + 1;
      assert rest[j] == users[at];
      assert IdOfUser(users[at]) != IdOfUser(users[k]);
    }
  }
}
