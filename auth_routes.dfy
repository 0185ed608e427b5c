/**
 * The `/api/auth` routes as transitions of the session store: login signs a
 * token pair and opens a session, refresh gives a session a new access
 * token, logout and a password change delete sessions, register adds a user,
 * and verify only reads. The lemmas say which tokens pass `authMiddleware`
 * after each transition.
 */
module AuthRoutes {
  import opened Wrappers
  import opened Strings
  import opened Js
  import opened Seqs
  import opened Domain
  import opened Store
  import opened ActivityLog
  import opened ErrorHandler
  import opened AuthMiddleware

  /** A direct answer `res.status(status).json({ success: false, message })`. */
  datatype Refusal = Refusal(status: nat, message: string)

  const INVALID_DATA := "Dades invàlides"
  const BAD_CREDENTIALS := "Credencials invàlides"
  const ACCOUNT_INACTIVE := "El compte no està actiu"

  /** The payload of an access token: the user's ids, role, centre and curs. */
  function AccessClaims(u: User): Claims {
    Claims(u.id, u.email, Some(u.role), u.centreId, u.cursId)
  }

  /** The payload of a refresh token: only the id and the email. */
  function RefreshClaims(u: User): Claims {
    Claims(u.id, u.email, None, None, None)
  }

  // ---------------------------------------------------------------- login

  /**
   * The checks of `/login`, in order: the validation, the email, the
   * password, and only then the status. The result is the row that signs in.
   */
  function LoginCheck(users: seq<User>, inputValid: bool, email: string, password: string): (r: Result<nat, Refusal>)
    ensures !inputValid ==> r == Err(Refusal(400, INVALID_DATA))
    ensures r.Ok? ==>
      UserByEmail(users, email) == Some(r.value) && PasswordMatches(password, users[r.value].password) && users[r.value].status == Active
    ensures inputValid && (UserByEmail(users, email).None? || !PasswordMatches(password, users[UserByEmail(users, email).value].password))
      ==> r == Err(Refusal(401, BAD_CREDENTIALS))
    ensures r == Err(Refusal(401, ACCOUNT_INACTIVE)) ==>
      UserByEmail(users, email).Some? && PasswordMatches(password, users[UserByEmail(users, email).value].password)
  {
    if !inputValid then Err(Refusal(400, INVALID_DATA))
    else match UserByEmail(users, email)
      case None => Err(Refusal(401, BAD_CREDENTIALS))
      case Some(k) =>
        if !PasswordMatches(password, users[k].password) then Err(Refusal(401, BAD_CREDENTIALS))
        else if users[k].status != Active then Err(Refusal(401, ACCOUNT_INACTIVE))
        else Ok(k)
  }

  /** With unique emails, login succeeds exactly for an active user whose password is given. */
  lemma LoginSucceedsIff(users: seq<User>, inputValid: bool, email: string, password: string)
    requires DistinctKeys(users, EmailOfUser)
    ensures LoginCheck(users, inputValid, email, password).Ok? <==>
      inputValid && (exists k :: 0 <= k < |users| && users[k].email == email
                       && PasswordMatches(password, users[k].password) && users[k].status == Active)
  {
    if inputValid && (exists k :: 0 <= k < |users| && users[k].email == email
                        && PasswordMatches(password, users[k].password) && users[k].status == Active) {
      var k :| 0 <= k < |users| && users[k].email == email && PasswordMatches(password, users[k].password) && users[k].status == Active;
      UserByEmailAt(users, k);
    }
  }

  datatype LoginData = LoginData(user: User, accessToken: string, refreshToken: string, expiresIn: nat)

  /**
   * `POST /login`: after the checks, an access token (one hour) and a
   * refresh token (seven days) are signed, a session holding both is
   * created, `lastLogin` is set and a `LOGIN` row is logged.
   */
  method Login(db: Db, inputValid: bool, email: string, password: string, client: Client) returns (o: Outcome<LoginData>)
    requires db.Valid()
    modifies db`serial, db`jwt, db`sessions, db`users, db`logs
    ensures db.Valid()
    ensures LoginCheck(old(db.users), inputValid, email, password).Err? ==>
      var f := LoginCheck(old(db.users), inputValid, email, password).error;
      o == Stopped(f.status, f.message) && unchanged(db)
    ensures LoginCheck(old(db.users), inputValid, email, password).Ok? ==>
      var k := LoginCheck(old(db.users), inputValid, email, password).value;
      var u := old(db.users)[k];
      var n := old(db.serial);
      && o == Served(LoginData(u, Generated(n), Generated(n + 1), ACCESS_TTL))
      && db.serial == n + 4
      && db.jwt == old(db.jwt)[Generated(n) := SignedToken(AccessSecret, AccessClaims(u), db.clock / 1000 + ACCESS_TTL)]
                              [Generated(n + 1) := SignedToken(RefreshSecret, RefreshClaims(u), db.clock / 1000 + REFRESH_TTL)]
      && db.sessions == old(db.sessions) + [Session(Generated(n + 2), u.id, Generated(n), Generated(n + 1), db.clock + SESSION_LIFETIME)]
      && db.users == old(db.users)[k := u.(lastLogin := Some(db.clock))]
      && db.logs == AfterLog(old(db.logs), db.auditFails,
           LogRow(Generated(n + 3), Some("LOGIN"), Some("users"), Some(u.id), Some(u.id), client.ip, client.userAgent,
                  None, None, db.clock, db.clock))
  {
    var c := LoginCheck(db.users, inputValid, email, password);
    if c.Err? {
      return Stopped(c.error.status, c.error.message);
    }
    var k := c.value;
    var u := db.users[k];
    ghost var n := db.serial;
    assert c == LoginCheck(old(db.users), inputValid, email, password);
    var accessToken, refreshToken := OpenSession(db, k, client);
    assert accessToken == Generated(n) && refreshToken == Generated(n + 1);
    o := Served(LoginData(u, accessToken, refreshToken, ACCESS_TTL));
  }

  /** What `/login` does for the row `k` that passed its checks. */
  method OpenSession(db: Db, k: nat, client: Client) returns (accessToken: string, refreshToken: string)
    requires db.Valid() && k < |db.users|
    modifies db`serial, db`jwt, db`sessions, db`users, db`logs
    ensures db.Valid()
    ensures accessToken == Generated(old(db.serial)) && refreshToken == Generated(old(db.serial) + 1)
    ensures db.serial == old(db.serial) + 4
    ensures db.jwt == old(db.jwt)[accessToken := SignedToken(AccessSecret, AccessClaims(old(db.users)[k]), db.clock / 1000 + ACCESS_TTL)]
                                 [refreshToken := SignedToken(RefreshSecret, RefreshClaims(old(db.users)[k]), db.clock / 1000 + REFRESH_TTL)]
    ensures db.sessions == old(db.sessions) + [Session(Generated(old(db.serial) + 2), old(db.users)[k].id, accessToken, refreshToken, db.clock + SESSION_LIFETIME)]
    ensures db.users == old(db.users)[k := old(db.users)[k].(lastLogin := Some(db.clock))]
    ensures db.logs == AfterLog(old(db.logs), db.auditFails,
      LogRow(Generated(old(db.serial) + 3), Some("LOGIN"), Some("users"), Some(old(db.users)[k].id), Some(old(db.users)[k].id),
             client.ip, client.userAgent, None, None, db.clock, db.clock))
  {
    var u := db.users[k];
    accessToken, refreshToken := IssueTokens(db, u);
    RecordLogin(db, k, accessToken, refreshToken, client);
  }

  /** The token pair of a login: the access token (one hour) and the refresh token (seven days), fresh to every session. */
  method IssueTokens(db: Db, u: User) returns (accessToken: string, refreshToken: string)
    requires db.Valid()
    modifies db`serial, db`jwt
    ensures db.Valid()
    ensures accessToken == Generated(old(db.serial)) && refreshToken == Generated(old(db.serial) + 1)
    ensures db.serial == old(db.serial) + 2
    ensures db.jwt == old(db.jwt)[accessToken := SignedToken(AccessSecret, AccessClaims(u), db.clock / 1000 + ACCESS_TTL)]
                                 [refreshToken := SignedToken(RefreshSecret, RefreshClaims(u), db.clock / 1000 + REFRESH_TTL)]
    ensures forall i :: 0 <= i < |db.sessions| ==> db.sessions[i].token != accessToken
  {
    accessToken := db.Sign(AccessSecret, AccessClaims(u), ACCESS_TTL);
    refreshToken := db.Sign(RefreshSecret, RefreshClaims(u), REFRESH_TTL);
  }

  /** The session row of a login, and the user's `lastLogin`. */
  method RecordSession(db: Db, k: nat, accessToken: string, refreshToken: string)
    requires db.Valid() && k < |db.users| && accessToken in db.jwt && refreshToken in db.jwt
    requires forall i :: 0 <= i < |db.sessions| ==> db.sessions[i].token != accessToken
    modifies db`serial, db`sessions, db`users
    ensures db.Valid()
    ensures db.serial == old(db.serial) + 1
    ensures db.sessions == old(db.sessions) + [Session(Generated(old(db.serial)), old(db.users)[k].id, accessToken, refreshToken, db.clock + SESSION_LIFETIME)]
    ensures db.users == old(db.users)[k := old(db.users)[k].(lastLogin := Some(db.clock))]
  {
    var u := db.users[k];
    UserByIdAt(db.users, k);
    var sid := db.FreshName();
    db.CreateSession(Session(sid, u.id, accessToken, refreshToken, db.clock + SESSION_LIFETIME));
    db.UpdateUser(k, u.(lastLogin := Some(db.clock)));
  }

  /** The session row, `lastLogin` and the `LOGIN` audit row of a login. */
  method RecordLogin(db: Db, k: nat, accessToken: string, refreshToken: string, client: Client)
    requires db.Valid() && k < |db.users| && accessToken in db.jwt && refreshToken in db.jwt
    requires forall i :: 0 <= i < |db.sessions| ==> db.sessions[i].token != accessToken
    modifies db`serial, db`sessions, db`users, db`logs
    ensures db.Valid()
    ensures db.serial == old(db.serial) + 2
    ensures db.sessions == old(db.sessions) + [Session(Generated(old(db.serial)), old(db.users)[k].id, accessToken, refreshToken, db.clock + SESSION_LIFETIME)]
    ensures db.users == old(db.users)[k := old(db.users)[k].(lastLogin := Some(db.clock))]
    ensures db.logs == AfterLog(old(db.logs), db.auditFails,
      LogRow(Generated(old(db.serial) + 1), Some("LOGIN"), Some("users"), Some(old(db.users)[k].id), Some(old(db.users)[k].id),
             client.ip, client.userAgent, None, None, db.clock, db.clock))
  {
    var id := db.users[k].id;
    RecordSession(db, k, accessToken, refreshToken);
    LogEvent(db, "LOGIN", "users", Some(id), Some(id), client.ip, client.userAgent, None);
  }

  /**
   * A session holding a freshly signed access token lets requests through
   * for as long as the token and the session live, as the user the token
   * names, exactly when that user is active.
   */
  lemma SessionTokenPasses(jwt: map<string, SignedToken>, users: seq<User>, sessions: seq<Session>, i: nat, now: nat)
    requires i < |sessions| && sessions[i].expiresAt > now && sessions[i].token != ""
    requires UserById(users, sessions[i].userId).Some?
    requires var u := users[UserById(users, sessions[i].userId).value];
      sessions[i].token in jwt && jwt[sessions[i].token].secret == AccessSecret
      && jwt[sessions[i].token].claims == AccessClaims(u) && now / 1000 < jwt[sessions[i].token].exp
    ensures var u := users[UserById(users, sessions[i].userId).value];
      Authenticate(Some("Bearer " + sessions[i].token), jwt, users, sessions, now)
        == if u.status == Active then Pass(IdentityOf(u)) else Reject(USER_INACTIVE)
  {
    ExtractBearer(sessions[i].token);
    assert LiveSession(sessions[i], sessions[i].token, sessions[i].userId, now);
  }

  /**
   * After a login, the new access token passes the middleware as the user
   * who signed in, at any time within its hour.
   */
  lemma LoginTokenPasses(users: seq<User>, sessions: seq<Session>, jwt: map<string, SignedToken>, inputValid: bool,
                         email: string, password: string, now: nat, later: nat, sid: string, accessToken: string,
                         refreshToken: string)
    requires DistinctKeys(users, IdOfUser)
    requires LoginCheck(users, inputValid, email, password).Ok?
    requires var u := users[LoginCheck(users, inputValid, email, password).value];
      accessToken in jwt && jwt[accessToken] == SignedToken(AccessSecret, AccessClaims(u), now / 1000 + ACCESS_TTL)
    requires accessToken != "" && now <= later && later / 1000 < now / 1000 + ACCESS_TTL
    ensures var k := LoginCheck(users, inputValid, email, password).value;
      var u := users[k];
      Authenticate(Some("Bearer " + accessToken), jwt, users[k := u.(lastLogin := Some(now))],
                   sessions + [Session(sid, u.id, accessToken, refreshToken, now + SESSION_LIFETIME)], later)
        == Pass(IdentityOf(u))
  {
    var k := LoginCheck(users, inputValid, email, password).value;
    var u := users[k];
    var users' := users[k := u.(lastLogin := Some(now))];
    var sessions' := sessions + [Session(sid, u.id, accessToken, refreshToken, now + SESSION_LIFETIME)];
    DistinctUpdate(users, k, u.(lastLogin := Some(now)), IdOfUser);
    UserByIdAt(users', k);
    assert sessions'[|sessions|].userId == users'[k].id;
    assert later < now + SESSION_LIFETIME by {
      assert later < 1000 * (later / 1000) + 1000;
      assert now / 1000 * 1000 <= now;
    }
    assert IdentityOf(users'[k]) == IdentityOf(u);
    SessionTokenPasses(jwt, users', sessions', |sessions|, later);
  }

  // ---------------------------------------------------------------- refresh

  const REFRESH_REQUIRED := "Refresh token és obligatori"
  const REFRESH_INVALID := "Refresh token invàlid"
  const REFRESH_EXPIRED := "Refresh token invàlid o expirat"

  /** The `findFirst` condition: this refresh token, the user it was signed for, and a session that has not expired. */
  predicate Renewable(s: Session, refreshToken: string, userId: string, now: nat) {
    s.refreshToken == refreshToken && s.userId == userId && s.expiresAt > now
  }

  /**
   * The checks of `/refresh`: a truthy token, which must be a string signed
   * with the refresh secret and unexpired (otherwise the library throws and
   * the catch answers 401), and then the first session it renews. The users
   * table is not consulted.
   */
  function RefreshCheck(refreshToken: Option<Json>, jwt: map<string, SignedToken>, sessions: seq<Session>, now: nat): (r: Result<nat, Refusal>)
    ensures !Truthy(refreshToken) ==> r == Err(Refusal(400, REFRESH_REQUIRED))
    ensures r.Err? ==> r.error in {Refusal(400, REFRESH_REQUIRED), Refusal(401, REFRESH_INVALID), Refusal(401, REFRESH_EXPIRED)}
    ensures r.Ok? ==> r.value < |sessions| && refreshToken == Some(JStr(sessions[r.value].refreshToken))
    ensures r.Ok? ==> var c := Verify(jwt, sessions[r.value].refreshToken, RefreshSecret, now);
      c.Some? && Renewable(sessions[r.value], sessions[r.value].refreshToken, c.value.userId, now)
      && forall j :: 0 <= j < r.value ==> !Renewable(sessions[j], sessions[r.value].refreshToken, c.value.userId, now)
  {
    if !Truthy(refreshToken) then Err(Refusal(400, REFRESH_REQUIRED))
    else if !refreshToken.value.JStr? then Err(Refusal(401, REFRESH_INVALID))
    else
      var rt := refreshToken.value.s;
      match Verify(jwt, rt, RefreshSecret, now)
      case None => Err(Refusal(401, REFRESH_INVALID))
      case Some(claims) =>
        match FirstIndex(sessions, (s: Session) => Renewable(s, rt, claims.userId, now))
        case None => Err(Refusal(401, REFRESH_EXPIRED))
        case Some(i) => Ok(i)
  }

  /** An access token is not a refresh token: signed with the other secret, it is refused as invalid. */
  lemma AccessTokenCannotRefresh(jwt: map<string, SignedToken>, sessions: seq<Session>, t: string, now: nat)
    requires t in jwt && jwt[t].secret == AccessSecret && t != ""
    ensures RefreshCheck(Some(JStr(t)), jwt, sessions, now) == Err(Refusal(401, REFRESH_INVALID))
  {
  }

  datatype RefreshData = RefreshData(accessToken: string, expiresIn: nat)

  /**
   * `POST /refresh`: a new access token is signed from the session's user
   * and written over that session's token; nothing else changes.
   */
  method Refresh(db: Db, refreshToken: Option<Json>) returns (o: Outcome<RefreshData>)
    requires db.Valid()
    modifies db`serial, db`jwt, db`sessions
    ensures db.Valid()
    ensures RefreshCheck(refreshToken, old(db.jwt), old(db.sessions), db.clock).Err? ==>
      var f := RefreshCheck(refreshToken, old(db.jwt), old(db.sessions), db.clock).error;
      o == Stopped(f.status, f.message) && unchanged(db)
    ensures RefreshCheck(refreshToken, old(db.jwt), old(db.sessions), db.clock).Ok? ==>
      var i := RefreshCheck(refreshToken, old(db.jwt), old(db.sessions), db.clock).value;
      var s := old(db.sessions)[i];
      var u := db.users[UserById(db.users, s.userId).value];
      var t := Generated(old(db.serial));
      && o == Served(RefreshData(t, ACCESS_TTL))
      && db.serial == old(db.serial) + 1
      && db.jwt == old(db.jwt)[t := SignedToken(AccessSecret, AccessClaims(u), db.clock / 1000 + ACCESS_TTL)]
      && db.sessions == old(db.sessions)[i := s.(token := t)]
  {
    var c := RefreshCheck(refreshToken, db.jwt, db.sessions, db.clock);
    if c.Err? {
      return Stopped(c.error.status, c.error.message);
    }
    var t := RenewSession(db, c.value);
    o := Served(RefreshData(t, ACCESS_TTL));
  }

  /** What `/refresh` does for the session `i` that passed its checks: a new access token from the session's user. */
  method RenewSession(db: Db, i: nat) returns (t: string)
    requires db.Valid() && i < |db.sessions|
    modifies db`serial, db`jwt, db`sessions
    ensures db.Valid()
    ensures var s := old(db.sessions)[i];
      var u := db.users[UserById(db.users, s.userId).value];
      && t == Generated(old(db.serial))
      && db.serial == old(db.serial) + 1
      && db.jwt == old(db.jwt)[t := SignedToken(AccessSecret, AccessClaims(u), db.clock / 1000 + ACCESS_TTL)]
      && db.sessions == old(db.sessions)[i := s.(token := t)]
  {
    var s := db.sessions[i];
    var u := db.users[UserById(db.users, s.userId).value];
    t := db.Sign(AccessSecret, AccessClaims(u), ACCESS_TTL);
    db.UpdateSessionToken(i, t);
  }

  /**
   * After a refresh, the session's previous access token no longer passes
   * the middleware, even though its signature is still good for up to an hour.
   */
  lemma RefreshRevokesPreviousToken(jwt: map<string, SignedToken>, users: seq<User>, sessions: seq<Session>, i: nat,
                                    t: string, jwt': map<string, SignedToken>, users': seq<User>, now: nat,
                                    authorization: Option<string>)
    requires SessionsValid(sessions, jwt, users) && i < |sessions| && t !in jwt
    requires ExtractToken(authorization) == Some(sessions[i].token)
    ensures Authenticate(authorization, jwt', users', sessions[i := sessions[i].(token := t)], now).Reject?
  {
    var r := sessions[i := sessions[i].(token := t)];
    forall j | 0 <= j < |r| ensures r[j].token != sessions[i].token {
      if j < i {
        assert TokenOfSession(sessions[j]) != TokenOfSession(sessions[i]);
      } else if i < j {
        assert TokenOfSession(sessions[i]) != TokenOfSession(sessions[j]);
      }
    }
    NoSessionNoPass(authorization, jwt', users', r, now);
  }

  /**
   * After a refresh, the new token passes exactly when the session's user is
   * active: the refresh itself renews tokens of inactive users too.
   */
  lemma RenewedTokenPassesIff(jwt: map<string, SignedToken>, users: seq<User>, sessions: seq<Session>, refreshToken: Option<Json>,
                              t: string, now: nat)
    requires SessionsValid(sessions, jwt, users) && t !in jwt && t != ""
    requires RefreshCheck(refreshToken, jwt, sessions, now).Ok?
    ensures var i := RefreshCheck(refreshToken, jwt, sessions, now).value;
      var u := users[UserById(users, sessions[i].userId).value];
      Authenticate(Some("Bearer " + t), jwt[t := SignedToken(AccessSecret, AccessClaims(u), now / 1000 + ACCESS_TTL)], users,
                   sessions[i := sessions[i].(token := t)], now)
        == if u.status == Active then Pass(IdentityOf(u)) else Reject(USER_INACTIVE)
  {
    var i := RefreshCheck(refreshToken, jwt, sessions, now).value;
    var u := users[UserById(users, sessions[i].userId).value];
    var r := sessions[i := sessions[i].(token := t)];
    assert r[i].userId == sessions[i].userId;
    SessionTokenPasses(jwt[t := SignedToken(AccessSecret, AccessClaims(u), now / 1000 + ACCESS_TTL)], users, r, i, now);
  }

  // ---------------------------------------------------------------- logout

  const LOGOUT_DONE := "Logout exitós"

  /** `session.deleteMany({ where: { refreshToken } })`. */
  function WithoutRefreshToken(sessions: seq<Session>, refreshToken: string): seq<Session> {
    Filter(sessions, NotHolding(refreshToken))
  }

  /** The sessions `deleteMany({ where: { refreshToken } })` keeps. */
  function NotHolding(refreshToken: string): Session -> bool {
    (s: Session) => s.refreshToken != refreshToken
  }

  /** The operators of the query engine's string filter that the model evaluates. */
  const STRING_FILTER_OPS: set<string> := {"equals", "not", "contains", "startsWith", "endsWith"}

  /** An operand of a string filter; only strings are accepted. */
  function Operand(j: Json): string {
    if j.JStr? then j.s else ""
  }

  /** `{ equals?, not?, contains?, startsWith?, endsWith? }` with string operands. */
  predicate IsStringFilter(f: map<string, Json>) {
    forall k | k in f :: k in STRING_FILTER_OPS && f[k].JStr?
  }

  /** A value satisfies a string filter when it satisfies every operator given. */
  predicate FilterMatches(f: map<string, Json>, v: string) {
    && ("equals" in f ==> v == Operand(f["equals"]))
    && ("not" in f ==> v != Operand(f["not"]))
    && ("contains" in f ==> Contains(v, Operand(f["contains"])))
    && ("startsWith" in f ==> Operand(f["startsWith"]) <= v)
    && ("endsWith" in f ==> |Operand(f["endsWith"])| <= |v| && v[|v| - |Operand(f["endsWith"])|..] == Operand(f["endsWith"]))
  }

  /**
   * What `where: { refreshToken }` accepts: the body's value is used as is,
   * so a string is compared for equality and an object is read as a string filter.
   */
  predicate RefreshTokenWhere(j: Json) {
    j.JStr? || (j.JObj? && IsStringFilter(j.fields))
  }

  /** Whether `where: { refreshToken: j }` selects session `s`. */
  predicate Selects(j: Json, s: Session) {
    match j
    case JStr(t) => s.refreshToken == t
    case JObj(f) => FilterMatches(f, s.refreshToken)
    case _ => false
  }

  /** The sessions `deleteMany({ where: { refreshToken: j } })` keeps. */
  function NotSelected(j: Json): Session -> bool {
    (s: Session) => !Selects(j, s)
  }

  /**
   * `POST /logout`: a truthy `refreshToken` is put unchecked into the
   * `where` of `deleteMany`. A string deletes the sessions holding it, an
   * object deletes the sessions its string filter selects, and any other
   * value is refused by the query engine and answered 500. A falsy one
   * changes nothing. The route requires no login.
   */
  method Logout(db: Db, refreshToken: Option<Json>) returns (o: Outcome<string>)
    requires db.Valid()
    modifies db`sessions
    ensures db.Valid()
    ensures !Truthy(refreshToken) ==> o == Served(LOGOUT_DONE) && db.sessions == old(db.sessions)
    ensures Truthy(refreshToken) && refreshToken.value.JStr? ==>
      o == Served(LOGOUT_DONE) && db.sessions == WithoutRefreshToken(old(db.sessions), refreshToken.value.s)
    ensures Truthy(refreshToken) && RefreshTokenWhere(refreshToken.value) ==>
      o == Served(LOGOUT_DONE) && db.sessions == Filter(old(db.sessions), NotSelected(refreshToken.value))
    ensures Truthy(refreshToken) && !RefreshTokenWhere(refreshToken.value) ==>
      o == Stopped(500, INTERNAL_ERROR) && db.sessions == old(db.sessions)
  {
    if Truthy(refreshToken) {
      if !RefreshTokenWhere(refreshToken.value) {
        return Stopped(500, INTERNAL_ERROR);
      }
      if refreshToken.value.JStr? {
        FilterCongruent(db.sessions, NotSelected(refreshToken.value), NotHolding(refreshToken.value.s));
      }
      db.DeleteSessions(NotSelected(refreshToken.value));
    }
    o := Served(LOGOUT_DONE);
  }

  /**
   * The body `{"refreshToken": {"not": ""}}` is a valid filter: it deletes
   * every session whose refresh token is not empty, whoever holds it.
   */
  lemma NotEmptyFilterLogsOutEveryone(sessions: seq<Session>)
    ensures RefreshTokenWhere(JObj(map["not" := JStr("")]))
    ensures Filter(sessions, NotSelected(JObj(map["not" := JStr("")]))) == Filter(sessions, (s: Session) => s.refreshToken == "")
  {
    var f := map["not" := JStr("")];
    assert IsStringFilter(f);
    forall i | 0 <= i < |sessions| ensures NotSelected(JObj(f))(sessions[i]) == (sessions[i].refreshToken == "") {
      assert Selects(JObj(f), sessions[i]) == FilterMatches(f, sessions[i].refreshToken);
    }
    FilterCongruent(sessions, NotSelected(JObj(f)), (s: Session) => s.refreshToken == "");
  }

  /** In a consistent store every refresh token is a signed, non-empty name, so that body empties the session table. */
  lemma NotEmptyFilterEmptiesSessions(sessions: seq<Session>)
    requires forall i :: 0 <= i < |sessions| ==> sessions[i].refreshToken != ""
    ensures Filter(sessions, NotSelected(JObj(map["not" := JStr("")]))) == []
  {
    NotEmptyFilterLogsOutEveryone(sessions);
    FilterNone(sessions, (s: Session) => s.refreshToken == "");
  }

  /** Logging out twice with the same token is the same as logging out once. */
  lemma LogoutIdempotent(sessions: seq<Session>, refreshToken: string)
    ensures WithoutRefreshToken(WithoutRefreshToken(sessions, refreshToken), refreshToken) == WithoutRefreshToken(sessions, refreshToken)
  {
    FilterAll(WithoutRefreshToken(sessions, refreshToken), NotHolding(refreshToken));
  }

  /** After a logout, the access token of every session that held the refresh token stops passing. */
  lemma LogoutRevokes(jwt: map<string, SignedToken>, users: seq<User>, sessions: seq<Session>, refreshToken: string, i: nat,
                      jwt': map<string, SignedToken>, users': seq<User>, now: nat, authorization: Option<string>)
    requires SessionsValid(sessions, jwt, users) && i < |sessions| && sessions[i].refreshToken == refreshToken
    requires ExtractToken(authorization) == Some(sessions[i].token)
    ensures Authenticate(authorization, jwt', users', WithoutRefreshToken(sessions, refreshToken), now).Reject?
  {
    var r := WithoutRefreshToken(sessions, refreshToken);
    forall j | 0 <= j < |r| ensures r[j].token != sessions[i].token {
      var m :| 0 <= m < |sessions| && sessions[m] == r[j];
      if m < i {
        assert TokenOfSession(sessions[m]) != TokenOfSession(sessions[i]);
      } else if i < m {
        assert TokenOfSession(sessions[i]) != TokenOfSession(sessions[m]);
      }
    }
    NoSessionNoPass(authorization, jwt', users', r, now);
  }

  // ---------------------------------------------------------------- register

  const EMAIL_TAKEN := "L'email ja està registrat"

  /** The body of `/register` once it has passed validation. */
  datatype Registration = Registration(email: string, password: string, firstName: string, lastName: string,
                                       role: Role, centreId: Option<string>, cursId: Option<string>)

  /**
   * The checks of `/register`: the validation, a free email, and the
   * references the database enforces when the row is written (a failed write
   * is answered 500 by the catch).
   */
  function RegisterCheck(users: seq<User>, centres: seq<Centre>, cursos: seq<Curs>, inputValid: bool, reg: Registration): (r: Option<Refusal>)
    ensures !inputValid ==> r == Some(Refusal(400, INVALID_DATA))
    ensures inputValid && UserByEmail(users, reg.email).Some? ==> r == Some(Refusal(400, EMAIL_TAKEN))
    ensures r.None? ==> UserByEmail(users, reg.email).None? && CentreRefOk(centres, reg.centreId) && CursRefOk(cursos, reg.cursId)
    ensures r.Some? ==> r.value in {Refusal(400, INVALID_DATA), Refusal(400, EMAIL_TAKEN), Refusal(500, INTERNAL_ERROR)}
  {
    if !inputValid then Some(Refusal(400, INVALID_DATA))
    else if UserByEmail(users, reg.email).Some? then Some(Refusal(400, EMAIL_TAKEN))
    else if !CentreRefOk(centres, reg.centreId) || !CursRefOk(cursos, reg.cursId) then Some(Refusal(500, INTERNAL_ERROR))
    else None
  }

  /** The row `/register` writes: the schema's default status, no login yet, created by the caller when there is one. */
  function RegisteredUser(id: string, reg: Registration, status: UserStatus, caller: Option<Identity>, now: nat): (u: User)
    ensures u.id == id && u.email == reg.email && u.status == status && u.role == reg.role
    ensures PasswordMatches(reg.password, u.password) && u.lastLogin.None? && u.createdAt == now
    ensures u.createdBy == (if caller.Some? then Some(caller.value.id) else None)
  {
    User(id, reg.email, Bcrypt(reg.password), reg.firstName, reg.lastName, reg.role, status, reg.centreId, reg.cursId,
         None, now, if caller.Some? then Some(caller.value.id) else None)
  }

  /** The `dadesNoves` of the `CREATE` row: the email, the names and the role, never the password. */
  function RegisterDetails(reg: Registration): map<string, Json> {
    map["email" := JStr(reg.email), "firstName" := JStr(reg.firstName), "lastName" := JStr(reg.lastName),
        "role" := JStr(RoleName(reg.role))]
  }

  /**
   * `POST /register` (answered 201): the user is created and a `CREATE` row
   * is logged. The routes are mounted without the authentication middleware,
   * so `caller` is in practice always absent.
   */
  method Register(db: Db, inputValid: bool, reg: Registration, caller: Option<Identity>, client: Client) returns (o: Outcome<User>)
    requires db.Valid()
    modifies db`serial, db`users, db`logs
    ensures db.Valid()
    ensures RegisterCheck(old(db.users), db.centres, db.cursos, inputValid, reg).Some? ==>
      var f := RegisterCheck(old(db.users), db.centres, db.cursos, inputValid, reg).value;
      o == Stopped(f.status, f.message) && unchanged(db)
    ensures RegisterCheck(old(db.users), db.centres, db.cursos, inputValid, reg).None? ==>
      var n := old(db.serial);
      var u := RegisteredUser(Generated(n), reg, db.defaultStatus, caller, db.clock);
      && o == Served(u)
      && db.serial == n + 2
      && db.users == old(db.users) + [u]
      && db.logs == AfterLog(old(db.logs), db.auditFails,
           LogRow(Generated(n + 1), Some("CREATE"), Some("users"), Some(u.id), u.createdBy, client.ip, client.userAgent,
                  Some(JObj(RegisterDetails(reg))), None, db.clock, db.clock))
  {
    var c := RegisterCheck(db.users, db.centres, db.cursos, inputValid, reg);
    if c.Some? {
      return Stopped(c.value.status, c.value.message);
    }
    var u := db.CreateUser(RegisteredUser(Generated(db.serial), reg, db.defaultStatus, caller, db.clock));
    LogEvent(db, "CREATE", "users", Some(u.id), u.createdBy, client.ip, client.userAgent, Some(JObj(RegisterDetails(reg))));
    o := Served(u);
  }

  // ---------------------------------------------------------------- verify

  const TOKEN_MISSING := "Token no proporcionat"

  /**
   * `GET /verify`: the token, its signature and expiry, and an active user;
   * the sessions are not consulted. The result is the user's row.
   */
  function VerifyToken(authorization: Option<string>, jwt: map<string, SignedToken>, users: seq<User>, now: nat): (r: Result<nat, Refusal>)
    ensures r.Err? ==> r.error.status == 401
    ensures r.Ok? ==> r.value < |users| && users[r.value].status == Active
  {
    var token := ExtractToken(authorization);
    if token.None? || token.value == "" then Err(Refusal(401, TOKEN_MISSING))
    else match Verify(jwt, token.value, AccessSecret, now)
      case None => Err(Refusal(401, TOKEN_INVALID))
      case Some(claims) =>
        match UserById(users, claims.userId)
        case None => Err(Refusal(401, USER_INACTIVE))
        case Some(k) => if users[k].status != Active then Err(Refusal(401, USER_INACTIVE)) else Ok(k)
  }

  /**
   * `/verify` is the middleware without the session check: whatever the
   * middleware lets through verifies as the same user, and a token that
   * verifies passes the middleware exactly when a live session holds it.
   * So a token whose session was deleted still verifies.
   */
  lemma VerifyIsAuthenticationWithoutSessions(authorization: Option<string>, jwt: map<string, SignedToken>, users: seq<User>,
                                              sessions: seq<Session>, now: nat)
    ensures VerifyToken(authorization, jwt, users, now).Err? ==> Authenticate(authorization, jwt, users, sessions, now).Reject?
    ensures VerifyToken(authorization, jwt, users, now).Ok? ==>
      var k := VerifyToken(authorization, jwt, users, now).value;
      (Authenticate(authorization, jwt, users, sessions, now).Pass? <==> HasLiveSession(sessions, ExtractToken(authorization).value, users[k].id, now))
      && (Authenticate(authorization, jwt, users, sessions, now).Pass? ==> Authenticate(authorization, jwt, users, sessions, now).who == IdentityOf(users[k]))
  {
  }

  // ---------------------------------------------------------------- change-password

  const PASSWORD_WRONG := "Contrasenya actual incorrecta"
  const PASSWORD_CHANGED := "Contrasenya canviada exitosament"

  /**
   * The checks of `/change-password`, in order: the validation, a caller,
   * the caller's row, and the current password. The result is that row.
   */
  function ChangePasswordCheck(users: seq<User>, inputValid: bool, caller: Option<Identity>, currentPassword: string): (r: Result<nat, Refusal>)
    ensures !inputValid ==> r == Err(Refusal(400, INVALID_DATA))
    ensures inputValid && (caller.None? || caller.value.id == "") ==> r == Err(Refusal(401, NOT_AUTHORISED))
    ensures r.Ok? ==>
      caller.Some? && UserById(users, caller.value.id) == Some(r.value) && PasswordMatches(currentPassword, users[r.value].password)
    ensures r == Err(Refusal(400, PASSWORD_WRONG)) ==> caller.Some? && UserById(users, caller.value.id).Some?
  {
    if !inputValid then Err(Refusal(400, INVALID_DATA))
    else if caller.None? || caller.value.id == "" then Err(Refusal(401, NOT_AUTHORISED))
    else match UserById(users, caller.value.id)
      case None => Err(Refusal(404, "Usuari no trobat"))
      case Some(k) => if !PasswordMatches(currentPassword, users[k].password) then Err(Refusal(400, PASSWORD_WRONG)) else Ok(k)
  }

  /**
   * `POST /change-password`: the new hash replaces the old one, every
   * session of the user is deleted and an `UPDATE` row is logged.
   */
  method ChangePassword(db: Db, inputValid: bool, caller: Option<Identity>, currentPassword: string, newPassword: string,
                        client: Client) returns (o: Outcome<string>)
    requires db.Valid()
    modifies db`users, db`sessions, db`logs, db`serial
    ensures db.Valid()
    ensures ChangePasswordCheck(old(db.users), inputValid, caller, currentPassword).Err? ==>
      var f := ChangePasswordCheck(old(db.users), inputValid, caller, currentPassword).error;
      o == Stopped(f.status, f.message) && unchanged(db)
    ensures ChangePasswordCheck(old(db.users), inputValid, caller, currentPassword).Ok? ==>
      var k := ChangePasswordCheck(old(db.users), inputValid, caller, currentPassword).value;
      var uid := caller.value.id;
      && o == Served(PASSWORD_CHANGED)
      && db.users == old(db.users)[k := old(db.users)[k].(password := Bcrypt(newPassword))]
      && db.sessions == SessionsNotOf(old(db.sessions), uid)
      && db.serial == old(db.serial) + 1
      && db.logs == AfterLog(old(db.logs), db.auditFails,
           LogRow(Generated(old(db.serial)), Some("UPDATE"), Some("users"), Some(uid), Some(uid), client.ip, client.userAgent,
                  None, None, db.clock, db.clock))
  {
    var c := ChangePasswordCheck(db.users, inputValid, caller, currentPassword);
    if c.Err? {
      return Stopped(c.error.status, c.error.message);
    }
    var k := c.value;
    var uid := caller.value.id;
    db.UpdateUser(k, db.users[k].(password := Bcrypt(newPassword)));
    db.DeleteSessions(NotOwnedBy(uid));
    LogEvent(db, "UPDATE", "users", Some(uid), Some(uid), client.ip, client.userAgent, None);
    o := Served(PASSWORD_CHANGED);
  }

  /** After a password change no request authenticates as that user until a new login. */
  lemma PasswordChangeSignsOut(jwt: map<string, SignedToken>, users: seq<User>, sessions: seq<Session>, userId: string,
                               now: nat, authorization: Option<string>)
    ensures var r := Authenticate(authorization, jwt, users, SessionsNotOf(sessions, userId), now);
      r.Pass? ==> r.who.id != userId
  {
    var rest := SessionsNotOf(sessions, userId);
    var r := Authenticate(authorization, jwt, users, rest, now);
    if r.Pass? {
      PassIff(authorization, jwt, users, rest, now);
      var token := ExtractToken(authorization).value;
      var claims := Verify(jwt, token, AccessSecret, now).value;
      var k := UserById(users, claims.userId).value;
      var i :| 0 <= i < |rest| && LiveSession(rest[i], token, users[k].id, now);
      assert rest[i].userId != userId;
    }
  }

  /** After a password change the old password is refused like a wrong one, and the new one logs in an active user. */
  lemma OnlyNewPasswordLogsIn(users: seq<User>, k: nat, oldPassword: string, newPassword: string)
    requires DistinctKeys(users, EmailOfUser) && k < |users| && oldPassword != newPassword
    ensures var users' := users[k := users[k].(password := Bcrypt(newPassword))];
      && LoginCheck(users', true, users[k].email, oldPassword) == Err(Refusal(401, BAD_CREDENTIALS))
      && (LoginCheck(users', true, users[k].email, newPassword).Ok? <==> users[k].status == Active)
  {
    var u := users[k].(password := Bcrypt(newPassword));
    LookupsAfterUpdate(users, k, u, u.id, u.email);
    UserByEmailAt(users, k);
  }
}
