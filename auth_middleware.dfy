/**
 * `authMiddleware`: bearer token, signature and expiry, an active user, and a
 * live session for exactly that token and user, in that order; on success the
 * identity is attached to the request. Then the role and tenant gates that
 * routes put after it.
 */
module AuthMiddleware {
  import opened Wrappers
  import opened Strings
  import opened Js
  import opened Seqs
  import opened Domain
  import opened Store
  import opened Http

  /** `authorization?.replace('Bearer ', '')`: the header with its first `Bearer ` removed, wherever it occurs. */
  function ExtractToken(authorization: Option<string>): Option<string> {
    if authorization.Some? then Some(ReplaceFirst(authorization.value, "Bearer ", "")) else None
  }

  /** The usual header gives back exactly the token that follows `Bearer `. */
  lemma ExtractBearer(t: string)
    ensures ExtractToken(Some("Bearer " + t)) == Some(t)
  {
    ReplaceLeadingPattern("Bearer ", t);
  }

  /** A session that authenticates `token` for user `uid` at time `now` (expiry is exclusive). */
  predicate LiveSession(s: Session, token: string, uid: string, now: nat) {
    s.token == token && s.userId == uid && s.expiresAt > now
  }

  predicate HasLiveSession(sessions: seq<Session>, token: string, uid: string, now: nat) {
    exists i :: 0 <= i < |sessions| && LiveSession(sessions[i], token, uid, now)
  }

  /** `req.user` for a user row: its ids, with a null (absent) centre or curs left undefined. */
  function IdentityOf(u: User): (who: Identity)
    ensures who.id == u.id && who.email == u.email && who.role == u.role
    ensures who.centreId == OrUndefined(u.centreId) && who.cursId == OrUndefined(u.cursId)
  {
    Identity(u.id, u.email, u.role, OrUndefined(u.centreId), OrUndefined(u.cursId))
  }

  /** The decision of the middleware's checks: proceed with an identity, or answer 401 with a message. */
  datatype AuthResult = Pass(who: Identity) | Reject(message: string)

  const TOKEN_REQUIRED := "Token d'autenticació requerit"
  const TOKEN_INVALID := "Token invàlid"
  const USER_INACTIVE := "Usuari no trobat o inactiu"
  const SESSION_EXPIRED := "Sessió expirada"

  /**
   * The middleware's checks as one function of the header and the state. Each step only
   * runs when the previous ones passed.
   */
  function Authenticate(authorization: Option<string>, jwt: map<string, SignedToken>, users: seq<User>,
                        sessions: seq<Session>, now: nat): (r: AuthResult)
    ensures r.Reject? ==> r.message in {TOKEN_REQUIRED, TOKEN_INVALID, USER_INACTIVE, SESSION_EXPIRED}
  {
    var token := ExtractToken(authorization);
    if token.None? || token.value == "" then Reject(TOKEN_REQUIRED)
    else match Verify(jwt, token.value, AccessSecret, now)
      case None => Reject(TOKEN_INVALID)
      case Some(claims) =>
        match UserById(users, claims.userId)
        case None => Reject(USER_INACTIVE)
        case Some(k) =>
          if users[k].status != Active then Reject(USER_INACTIVE)
          else if !HasLiveSession(sessions, token.value, users[k].id, now) then Reject(SESSION_EXPIRED)
          else Pass(IdentityOf(users[k]))
  }

  /** Without a token nothing else is looked at: the answer is the same whatever the state. */
  lemma MissingTokenRejected(authorization: Option<string>, jwt: map<string, SignedToken>, users: seq<User>,
                             sessions: seq<Session>, now: nat)
    requires ExtractToken(authorization).None? || ExtractToken(authorization).value == ""
    ensures Authenticate(authorization, jwt, users, sessions, now) == Reject(TOKEN_REQUIRED)
  {
  }

  /**
   * A request passes exactly when its token is signed with the access secret
   * and unexpired, names an active user, and a live session holds that
   * token for that user; the identity is then the user's.
   */
  lemma PassIff(authorization: Option<string>, jwt: map<string, SignedToken>, users: seq<User>,
                sessions: seq<Session>, now: nat)
    ensures var r := Authenticate(authorization, jwt, users, sessions, now);
      var token := ExtractToken(authorization);
      r.Pass? <==>
        token.Some? && token.value != ""
        && Verify(jwt, token.value, AccessSecret, now).Some?
        && UserById(users, Verify(jwt, token.value, AccessSecret, now).value.userId).Some?
        && users[UserById(users, Verify(jwt, token.value, AccessSecret, now).value.userId).value].status == Active
        && HasLiveSession(sessions, token.value, Verify(jwt, token.value, AccessSecret, now).value.userId, now)
    ensures var r := Authenticate(authorization, jwt, users, sessions, now);
      r.Pass? ==> exists k :: 0 <= k < |users| && r.who == IdentityOf(users[k]) && users[k].status == Active
  {
    var token := ExtractToken(authorization);
    if token.Some? && token.value != "" {
      var c := Verify(jwt, token.value, AccessSecret, now);
      if c.Some? {
        var k := UserById(users, c.value.userId);
        if k.Some? {
          assert users[k.value].id == c.value.userId;
        }
      }
    }
  }

  /** A valid token is not enough: without a live session for it, the request is refused. */
  lemma NoSessionNoPass(authorization: Option<string>, jwt: map<string, SignedToken>, users: seq<User>,
                        sessions: seq<Session>, now: nat)
    requires forall i :: 0 <= i < |sessions| ==> ExtractToken(authorization) != Some(sessions[i].token) || sessions[i].expiresAt <= now
    ensures Authenticate(authorization, jwt, users, sessions, now).Reject?
  {
  }

  /**
   * `authMiddleware(req, res, next)`: the middleware's checks run step by step against
   * the store, scanning the sessions as `findFirst` does; `req.user` is set
   * only on success.
   */
  method Authenticator(db: Db, req: Request) returns (g: Gate)
    modifies req`user
    ensures var r := Authenticate(req.authorization, db.jwt, db.users, db.sessions, db.clock);
      && (r.Pass? ==> g == Next && req.user == Some(r.who))
      && (r.Reject? ==> g == Halt(401, r.message) && req.user == old(req.user))
  {
    var token := ExtractToken(req.authorization);
    if token.None? || token.value == "" {
      return Halt(401, TOKEN_REQUIRED);
    }
    var decoded := Verify(db.jwt, token.value, AccessSecret, db.clock);
    if decoded.None? {
      return Halt(401, TOKEN_INVALID);
    }
    var k := UserById(db.users, decoded.value.userId);
    if k.None? || db.users[k.value].status != Active {
      return Halt(401, USER_INACTIVE);
    }
    var user := db.users[k.value];
    var i := 0;
    while i < |db.sessions| && !LiveSession(db.sessions[i], token.value, user.id, db.clock)
      invariant 0 <= i <= |db.sessions|
      invariant forall j :: 0 <= j < i ==> !LiveSession(db.sessions[j], token.value, user.id, db.clock)
      decreases |db.sessions| - i
    {
      i := i + 1;
    }
    if i == |db.sessions| {
      return Halt(401, SESSION_EXPIRED);
    }
    req.user := Some(IdentityOf(user));
    g := Next;
  }

  // ---------------------------------------------------------------- role and tenant gates

  const NOT_AUTHORISED := "No autoritzat"

  /** `requireRole(roles)`: 401 without a user, 403 when the user's role is not listed. */
  function RequireRole(roles: seq<string>, user: Option<Identity>): (g: Gate)
    ensures user.None? ==> g == Halt(401, NOT_AUTHORISED)
    ensures user.Some? ==> (g == Next <==> RoleName(user.value.role) in roles)
    ensures user.Some? && g.Halt? ==> g == Halt(403, "Accés denegat. Permisos insuficients.")
  {
    if user.None? then Halt(401, NOT_AUTHORISED)
    else if RoleName(user.value.role) !in roles then Halt(403, "Accés denegat. Permisos insuficients.")
    else Next
  }

  function RequireSuperAdmin(user: Option<Identity>): Gate { RequireRole(["SUPERADMIN"], user) }

  function RequireAdminCentre(user: Option<Identity>): Gate { RequireRole(["SUPERADMIN", "ADMIN_CENTRE"], user) }

  function RequireAdminCurs(user: Option<Identity>): Gate { RequireRole(["SUPERADMIN", "ADMIN_CENTRE", "ADMIN_CURS"], user) }

  /**
   * The three fixed gates nest: the superadmin gate admits only superadmins,
   * the centre gate also admits centre admins, and the curs gate admits
   * every signed-in user.
   */
  lemma RoleGatesNest(user: Option<Identity>)
    ensures RequireSuperAdmin(user) == Next <==> user.Some? && user.value.role == SuperAdmin
    ensures RequireAdminCentre(user) == Next <==> user.Some? && user.value.role in {SuperAdmin, AdminCentre}
    ensures RequireAdminCurs(user) == Next <==> user.Some?
    ensures RequireSuperAdmin(user) == Next ==> RequireAdminCentre(user) == Next
    ensures RequireAdminCentre(user) == Next ==> RequireAdminCurs(user) == Next
  {
    if user.Some? {
      var n := RoleName(user.value.role);
      assert n == "SUPERADMIN" <==> user.value.role == SuperAdmin;
      assert n == "ADMIN_CENTRE" <==> user.value.role == AdminCentre;
    }
  }

  /** `req.params[key] || req.body[key]`: the route parameter unless it is empty, else the body's value. */
  function ParamOrBody(params: map<string, string>, body: map<string, Json>, key: string): Option<Json> {
    if key in params && params[key] != "" then Some(JStr(params[key])) else Field(body, key)
  }

  /** `a === b` for an optional id and a request value: `undefined` equals only `undefined`. */
  predicate SameId(a: Option<string>, b: Option<Json>) {
    match a
    case None => b.None?
    case Some(s) => b == Some(JStr(s))
  }

  /** `requireCentreAccess(key = 'centreId')`. */
  function RequireCentreAccess(key: string, user: Option<Identity>, params: map<string, string>, body: map<string, Json>): (g: Gate)
    ensures user.None? ==> g == Halt(401, NOT_AUTHORISED)
    ensures user.Some? ==>
      (g == Next <==> user.value.role == SuperAdmin || SameId(user.value.centreId, ParamOrBody(params, body, key)))
    ensures user.Some? && g.Halt? ==> g == Halt(403, "Accés denegat al centre especificat")
  {
    if user.None? then Halt(401, NOT_AUTHORISED)
    else
      var centreId := ParamOrBody(params, body, key);
      if user.value.role == SuperAdmin then Next
      else if user.value.role == AdminCentre && SameId(user.value.centreId, centreId) then Next
      else if user.value.role == AdminCurs && SameId(user.value.centreId, centreId) then Next
      else
        assert user.value.role == AdminCentre || user.value.role == AdminCurs;
        Halt(403, "Accés denegat al centre especificat")
  }

  /** An admin without a centre passes the centre gate for a request that names no centre. */
  lemma CentreGateUndefinedMatches(key: string, who: Identity, params: map<string, string>, body: map<string, Json>)
    requires who.centreId.None?
    requires key !in params || params[key] == ""
    requires key !in body
    ensures RequireCentreAccess(key, Some(who), params, body) == Next
  {
  }

  /** `requireCursAccess(key = 'cursId')`: centre admins are let through without a check. */
  function RequireCursAccess(key: string, user: Option<Identity>, params: map<string, string>, body: map<string, Json>): (g: Gate)
    ensures user.None? ==> g == Halt(401, NOT_AUTHORISED)
    ensures user.Some? ==>
      (g == Next <==> user.value.role in {SuperAdmin, AdminCentre} || SameId(user.value.cursId, ParamOrBody(params, body, key)))
    ensures user.Some? && g.Halt? ==> g == Halt(403, "Accés denegat al curs especificat")
  {
    if user.None? then Halt(401, NOT_AUTHORISED)
    else
      var cursId := ParamOrBody(params, body, key);
      if user.value.role == SuperAdmin then Next
      else if user.value.role == AdminCentre then Next
      else if user.value.role == AdminCurs && SameId(user.value.cursId, cursId) then Next
      else
        assert user.value.role == AdminCurs;
        Halt(403, "Accés denegat al curs especificat")
  }

  /** `requireUserAccess(key = 'userId')`: superadmins, or the user named by the request. */
  function RequireUserAccess(key: string, user: Option<Identity>, params: map<string, string>, body: map<string, Json>): (g: Gate)
    ensures user.None? ==> g == Halt(401, NOT_AUTHORISED)
    ensures user.Some? ==>
      (g == Next <==> user.value.role == SuperAdmin || ParamOrBody(params, body, key) == Some(JStr(user.value.id)))
    ensures user.Some? && g.Halt? ==> g == Halt(403, "Accés denegat a l'usuari especificat")
  {
    if user.None? then Halt(401, NOT_AUTHORISED)
    else
      var userId := ParamOrBody(params, body, key);
      if user.value.role == SuperAdmin then Next
      else if userId == Some(JStr(user.value.id)) then Next
      else Halt(403, "Accés denegat a l'usuari especificat")
  }
}
