/**
 * The database and the token signer seen as one piece of state: the tables the
 * handlers read and write, in insertion order, the tokens that have been
 * signed, and the clock.
 *
 * Signing is modelled by a registry: a token is a fresh name, and verifying it
 * looks up what was signed under that name. Fresh names (tokens and row ids)
 * are `Generated(n)` for a counter `n` that only grows.
 */
module Store {
  import opened Wrappers
  import opened Strings
  import opened Seqs
  import opened Domain

  /** `JWT_SECRET` signs access tokens, `JWT_REFRESH_SECRET` refresh tokens; the two are assumed to differ. */
  datatype Secret = AccessSecret | RefreshSecret

  /** The payload of a token; a refresh token carries only `userId` and `email`. */
  datatype Claims = Claims(userId: string, email: string, role: Option<Role>, centreId: Option<string>, cursId: Option<string>)

  /** What was signed under a token: the secret, the payload and the expiry in whole seconds. */
  datatype SignedToken = SignedToken(secret: Secret, claims: Claims, exp: nat)

  /** `expiresIn: '1h'` and `'7d'`, in seconds. */
  const ACCESS_TTL: nat := 3600
  const REFRESH_TTL: nat := 604800

  /** A session row lives `7 * 24 * 60 * 60 * 1000` milliseconds. */
  const SESSION_LIFETIME: nat := 604800000

  /**
   * The `k`-th name the counter hands out, standing for a generated id or a
   * signed token string. Only its injectivity matters, so it is the name of
   * length `k + 1`.
   */
  function Generated(k: nat): (t: string)
    ensures |t| == k + 1
  {
    seq(k + 1, _ => '#')
  }

  /** `t` is none of the names the counter hands out from `n` on: it cannot clash with a later one. */
  ghost predicate NotAhead(t: string, n: nat) {
    forall m: nat :: n <= m ==> t != Generated(m)
  }

  /** Every name handed out before `n` is clear of the names still to come. */
  lemma GeneratedNotAhead(k: nat, n: nat)
    requires k < n
    ensures NotAhead(Generated(k), n)
  {
    forall m: nat | n <= m ensures Generated(k) != Generated(m) {
      assert |Generated(k)| != |Generated(m)|;
    }
  }

  /**
   * `jwt.verify(token, secret)`: the payload, when `token` was signed with
   * `secret` and its expiry (in seconds, exclusive) has not been reached.
   * `None` is the exception the library throws otherwise.
   */
  function Verify(jwt: map<string, SignedToken>, token: string, secret: Secret, now: nat): (r: Option<Claims>)
    ensures r.Some? ==> token in jwt && jwt[token].secret == secret && r.value == jwt[token].claims
    ensures r.Some? ==> now / 1000 < jwt[token].exp
  {
    if token in jwt && jwt[token].secret == secret && now / 1000 < jwt[token].exp then Some(jwt[token].claims) else None
  }

  // ---------------------------------------------------------------- invariants

  /** Every signed token is a name the counter has already handed out. */
  ghost predicate TokensIssued(jwt: map<string, SignedToken>, serial: nat) {
    forall t :: t in jwt ==> NotAhead(t, serial)
  }

  /** Session tokens were signed, no two sessions share an access token, and each session's user exists. */
  predicate SessionsValid(sessions: seq<Session>, jwt: map<string, SignedToken>, users: seq<User>) {
    (forall i :: 0 <= i < |sessions| ==> sessions[i].token in jwt && sessions[i].refreshToken in jwt)
    && (forall i :: 0 <= i < |sessions| ==> UserById(users, sessions[i].userId).Some?)
    && DistinctTokens(sessions)
  }

  predicate DistinctTokens(sessions: seq<Session>) {
    DistinctKeys(sessions, TokenOfSession)
  }

  /** A table's ids are names already handed out, and no two rows share one. */
  ghost predicate Keyed<T>(rows: seq<T>, key: T -> string, serial: nat) {
    (forall i :: 0 <= i < |rows| ==> NotAhead(key(rows[i]), serial)) && DistinctKeys(rows, key)
  }

  /** The unique columns of the tables: every id, and a user's email. */
  ghost predicate TablesKeyed(users: seq<User>, centres: seq<Centre>, cursos: seq<Curs>, serial: nat) {
    Keyed(users, IdOfUser, serial) && DistinctKeys(users, EmailOfUser)
    && Keyed(centres, IdOfCentre, serial) && Keyed(cursos, IdOfCurs, serial)
  }

  lemma KeyedLater<T>(rows: seq<T>, key: T -> string, n: nat, m: nat)
    requires Keyed(rows, key, n) && n <= m
    ensures Keyed(rows, key, m)
  {
    assert forall i :: 0 <= i < |rows| ==> NotAhead(key(rows[i]), m);
  }

  /** A row whose id is the next fresh name can be added. */
  lemma KeyedAppend<T>(rows: seq<T>, key: T -> string, serial: nat, x: T)
    requires Keyed(rows, key, serial) && key(x) == Generated(serial)
    ensures Keyed(rows + [x], key, serial + 1)
  {
    KeyedLater(rows, key, serial, serial + 1);
    assert forall i :: 0 <= i < |rows| ==> key(rows[i]) != key(x);
    DistinctAppend(rows, x, key);
    var r := rows + [x];
    forall i | 0 <= i < |r| ensures NotAhead(key(r[i]), serial + 1) {
      if i == |rows| {
        GeneratedNotAhead(serial, serial + 1);
      } else {
        assert r[i] == rows[i];
      }
    }
  }

  lemma KeyedUpdate<T>(rows: seq<T>, key: T -> string, serial: nat, k: nat, x: T)
    requires Keyed(rows, key, serial) && k < |rows| && key(x) == key(rows[k])
    ensures Keyed(rows[k := x], key, serial)
  {
    DistinctUpdate(rows, k, x, key);
    var r := rows[k := x];
    forall i | 0 <= i < |r| ensures NotAhead(key(r[i]), serial) {
      assert key(r[i]) == key(rows[i]);
    }
  }

  lemma KeyedRemoveAt<T>(rows: seq<T>, key: T -> string, serial: nat, k: nat)
    requires Keyed(rows, key, serial) && k < |rows|
    ensures Keyed(RemoveAt(rows, k), key, serial)
  {
    DistinctRemoveAt(rows, k, key);
    var r := RemoveAt(rows, k);
    forall i | 0 <= i < |r| ensures NotAhead(key(r[i]), serial) {
      assert r[i] == rows[if i < k then i else i + 1];
    }
  }

  /** Audit rows are appended in time order and none lies in the future. */
  predicate Chronological(logs: seq<LogRow>, clock: nat) {
    NonDecreasing(logs, (r: LogRow) => r.createdAt)
    && forall i :: 0 <= i < |logs| ==> logs[i].createdAt <= clock && logs[i].timestamp == logs[i].createdAt
  }

  /** The sessions `deleteMany({ where: { userId } })` keeps. */
  function NotOwnedBy(userId: string): Session -> bool {
    (s: Session) => s.userId != userId
  }

  /** `session.deleteMany({ where: { userId } })`. */
  function SessionsNotOf(sessions: seq<Session>, userId: string): seq<Session> {
    Filter(sessions, NotOwnedBy(userId))
  }

  // ---------------------------------------------------------------- how the handlers keep the invariants

  /** A session is added whose tokens were signed and whose access token is new. */
  lemma AddSession(sessions: seq<Session>, jwt: map<string, SignedToken>, users: seq<User>, s: Session)
    requires SessionsValid(sessions, jwt, users)
    requires s.token in jwt && s.refreshToken in jwt && UserById(users, s.userId).Some?
    requires forall i :: 0 <= i < |sessions| ==> sessions[i].token != s.token
    ensures SessionsValid(sessions + [s], jwt, users)
  {
    DistinctAppend(sessions, s, TokenOfSession);
    var r := sessions + [s];
    assert forall i :: 0 <= i < |sessions| ==> r[i] == sessions[i];
  }

  /** Deleting sessions (`deleteMany`) keeps the rest valid. */
  lemma DropSessions(sessions: seq<Session>, jwt: map<string, SignedToken>, users: seq<User>, p: Session -> bool)
    requires SessionsValid(sessions, jwt, users)
    ensures SessionsValid(Filter(sessions, p), jwt, users)
  {
    DistinctFilter(sessions, p, TokenOfSession);
  }

  /** A session's access token is replaced by a signed token no session holds. */
  lemma RetokenSession(sessions: seq<Session>, jwt: map<string, SignedToken>, users: seq<User>, i: nat, t: string)
    requires SessionsValid(sessions, jwt, users) && i < |sessions| && t in jwt
    requires forall j :: 0 <= j < |sessions| ==> sessions[j].token != t
    ensures SessionsValid(sessions[i := sessions[i].(token := t)], jwt, users)
  {
    var r := sessions[i := sessions[i].(token := t)];
    forall a, b | 0 <= a < b < |r| ensures TokenOfSession(r[a]) != TokenOfSession(r[b]) {
      if a != i && b != i {
        assert TokenOfSession(sessions[a]) != TokenOfSession(sessions[b]);
      }
    }
  }

  /** A user row is rewritten keeping its id, with its own email or one no user has. */
  lemma RewriteUser(sessions: seq<Session>, jwt: map<string, SignedToken>, users: seq<User>, centres: seq<Centre>,
                    cursos: seq<Curs>, serial: nat, k: nat, u: User)
    requires SessionsValid(sessions, jwt, users) && TablesKeyed(users, centres, cursos, serial)
    requires k < |users| && u.id == users[k].id && (u.email == users[k].email || UserByEmail(users, u.email).None?)
    ensures SessionsValid(sessions, jwt, users[k := u]) && TablesKeyed(users[k := u], centres, cursos, serial)
  {
    forall i | 0 <= i < |sessions| ensures UserById(users[k := u], sessions[i].userId).Some? {
      UserByIdAfterUpdate(users, k, u, sessions[i].userId);
    }
    KeyedUpdate(users, IdOfUser, serial, k, u);
    if u.email == users[k].email {
      DistinctUpdate(users, k, u, EmailOfUser);
    } else {
      DistinctReplace(users, k, u, EmailOfUser);
    }
  }

  /** A user is added under the next fresh id with an email no user has. */
  lemma AddUser(sessions: seq<Session>, jwt: map<string, SignedToken>, users: seq<User>, centres: seq<Centre>,
                cursos: seq<Curs>, serial: nat, u: User)
    requires SessionsValid(sessions, jwt, users) && TablesKeyed(users, centres, cursos, serial)
    requires u.id == Generated(serial) && UserByEmail(users, u.email).None?
    ensures SessionsValid(sessions, jwt, users + [u]) && TablesKeyed(users + [u], centres, cursos, serial + 1)
  {
    var r := users + [u];
    forall i | 0 <= i < |sessions| ensures UserById(r, sessions[i].userId).Some? {
      var k := UserById(users, sessions[i].userId).value;
      assert r[k].id == sessions[i].userId;
    }
    KeyedAppend(users, IdOfUser, serial, u);
    DistinctAppend(users, u, EmailOfUser);
    KeyedLater(centres, IdOfCentre, serial, serial + 1);
    KeyedLater(cursos, IdOfCurs, serial, serial + 1);
  }

  /** A user is removed together with its sessions (the schema cascades the delete). */
  lemma RemoveUser(sessions: seq<Session>, jwt: map<string, SignedToken>, users: seq<User>, centres: seq<Centre>,
                   cursos: seq<Curs>, serial: nat, k: nat)
    requires SessionsValid(sessions, jwt, users) && TablesKeyed(users, centres, cursos, serial) && k < |users|
    ensures SessionsValid(SessionsNotOf(sessions, users[k].id), jwt, RemoveAt(users, k))
    ensures TablesKeyed(RemoveAt(users, k), centres, cursos, serial)
  {
    var kept := SessionsNotOf(sessions, users[k].id);
    DropSessions(sessions, jwt, users, NotOwnedBy(users[k].id));
    forall i | 0 <= i < |kept| ensures UserById(RemoveAt(users, k), kept[i].userId).Some? {
      RemainingOwner(users, k, kept[i].userId);
    }
    KeyedRemoveAt(users, IdOfUser, serial, k);
    DistinctRemoveAt(users, k, EmailOfUser);
  }

  /** A user other than row `k` is still found once row `k` is removed. */
  lemma RemainingOwner(users: seq<User>, k: nat, id: string)
    requires k < |users| && UserById(users, id).Some? && id != users[k].id
    ensures UserById(RemoveAt(users, k), id).Some?
  {
    var j := UserById(users, id).value;
    var r := RemoveAt(users, k);
    var at := if j < k then j else j - 1;
    assert r[at] == users[j];
  }

  /** Once the counter has moved on, the signed tokens are still behind it. */
  lemma TokensIssuedLater(jwt: map<string, SignedToken>, n: nat, m: nat)
    requires TokensIssued(jwt, n) && n <= m
    ensures TokensIssued(jwt, m)
  {
  }

  /** A centre or a curs is added under the next fresh id. */
  lemma AddCentre(users: seq<User>, centres: seq<Centre>, cursos: seq<Curs>, serial: nat, c: Centre)
    requires TablesKeyed(users, centres, cursos, serial) && c.id == Generated(serial)
    ensures TablesKeyed(users, centres + [c], cursos, serial + 1)
  {
    KeyedLater(users, IdOfUser, serial, serial + 1);
    KeyedAppend(centres, IdOfCentre, serial, c);
    KeyedLater(cursos, IdOfCurs, serial, serial + 1);
  }

  lemma AddCurs(users: seq<User>, centres: seq<Centre>, cursos: seq<Curs>, serial: nat, c: Curs)
    requires TablesKeyed(users, centres, cursos, serial) && c.id == Generated(serial)
    ensures TablesKeyed(users, centres, cursos + [c], serial + 1)
  {
    KeyedLater(users, IdOfUser, serial, serial + 1);
    KeyedLater(centres, IdOfCentre, serial, serial + 1);
    KeyedAppend(cursos, IdOfCurs, serial, c);
  }

  class Db {
    /** `Date.now()`, in milliseconds. */
    var clock: nat
    var serial: nat
    var jwt: map<string, SignedToken>
    var users: seq<User>
    var sessions: seq<Session>
    var centres: seq<Centre>
    var cursos: seq<Curs>
    var assignatures: seq<Member>
    var professors: seq<Member>
    var alumnes: seq<Member>
    var logs: seq<LogRow>
    /** The status the schema gives a user created without one. */
    const defaultStatus: UserStatus
    /** The status the schema gives a centre or a curs created without one. */
    const defaultOrgStatus: OrgStatus
    /** Whether the audit table currently rejects writes. */
    var auditFails: bool

    ghost predicate Valid()
      reads this
    {
      TokensIssued(jwt, serial) && SessionsValid(sessions, jwt, users) && Chronological(logs, clock)
      && TablesKeyed(users, centres, cursos, serial)
    }

    constructor (defaultStatus: UserStatus, defaultOrgStatus: OrgStatus, clock: nat)
      ensures Valid()
      ensures this.defaultStatus == defaultStatus && this.defaultOrgStatus == defaultOrgStatus
      ensures this.clock == clock && !auditFails
      ensures serial == 0 && jwt == map[] && users == [] && sessions == [] && centres == [] && cursos == []
      ensures assignatures == [] && professors == [] && alumnes == [] && logs == []
    {
      this.defaultStatus := defaultStatus;
      this.defaultOrgStatus := defaultOrgStatus;
      this.clock := clock;
      serial := 0;
      jwt := map[];
      users := [];
      sessions := [];
      centres := [];
      cursos := [];
      assignatures := [];
      professors := [];
      alumnes := [];
      logs := [];
      auditFails := false;
    }

    /** Time passes. */
    method Tick(ms: nat)
      requires Valid()
      modifies this`clock
      ensures Valid()
      ensures clock == old(clock) + ms
    {
      clock := clock + ms;
    }

    /** A name no token has been signed under: a new row id or token. */
    method FreshName() returns (name: string)
      requires Valid()
      modifies this`serial
      ensures Valid()
      ensures serial == old(serial) + 1 && name == Generated(old(serial))
      ensures name !in jwt
    {
      name := Generated(serial);
      serial := serial + 1;
      KeyedLater(users, IdOfUser, serial - 1, serial);
      KeyedLater(centres, IdOfCentre, serial - 1, serial);
      KeyedLater(cursos, IdOfCurs, serial - 1, serial);
    }

    /** `jwt.sign(claims, secret, { expiresIn: ttl })`: the expiry counts from the current second. */
    method Sign(secret: Secret, claims: Claims, ttl: nat) returns (token: string)
      requires Valid()
      modifies this`serial, this`jwt
      ensures Valid()
      ensures serial == old(serial) + 1 && token == Generated(old(serial))
      ensures token !in old(jwt) && forall i :: 0 <= i < |sessions| ==> sessions[i].token != token
      ensures jwt == old(jwt)[token := SignedToken(secret, claims, clock / 1000 + ttl)]
    {
      assert forall i :: 0 <= i < |sessions| ==> sessions[i].token in jwt;
      token := FreshName();
      jwt := jwt[token := SignedToken(secret, claims, clock / 1000 + ttl)];
      GeneratedNotAhead(serial - 1, serial);
    }

    // ------------------------------------------------------------ writes of the handlers

    /** `session.create`: a session whose tokens were signed and whose access token no session holds. */
    method CreateSession(s: Session)
      requires Valid()
      requires s.token in jwt && s.refreshToken in jwt && UserById(users, s.userId).Some?
      requires forall i :: 0 <= i < |sessions| ==> sessions[i].token != s.token
      modifies this`sessions
      ensures Valid()
      ensures sessions == old(sessions) + [s]
    {
      AddSession(sessions, jwt, users, s);
      sessions := sessions + [s];
    }

    /** `session.update({ data: { token } })` on session `i`, with a token no session holds. */
    method UpdateSessionToken(i: nat, t: string)
      requires Valid() && i < |sessions| && t in jwt
      requires forall j :: 0 <= j < |sessions| ==> sessions[j].token != t
      modifies this`sessions
      ensures Valid()
      ensures sessions == old(sessions)[i := old(sessions)[i].(token := t)]
    {
      RetokenSession(sessions, jwt, users, i, t);
      sessions := sessions[i := sessions[i].(token := t)];
    }

    /** `session.deleteMany({ where })`: the sessions the condition keeps stay, in order. */
    method DeleteSessions(keep: Session -> bool)
      requires Valid()
      modifies this`sessions
      ensures Valid()
      ensures sessions == Filter(old(sessions), keep)
    {
      DropSessions(sessions, jwt, users, keep);
      sessions := Filter(sessions, keep);
    }

    /** `user.update` of row `k` with a row that keeps its id and whose email no other user has. */
    method UpdateUser(k: nat, u: User)
      requires Valid() && k < |users| && u.id == users[k].id && (u.email == users[k].email || UserByEmail(users, u.email).None?)
      modifies this`users
      ensures Valid()
      ensures users == old(users)[k := u]
    {
      RewriteUser(sessions, jwt, users, centres, cursos, serial, k, u);
      users := users[k := u];
    }

    /** `user.create`: the row gets the next fresh id; its email must be free. */
    method CreateUser(row: User) returns (u: User)
      requires Valid() && UserByEmail(users, row.email).None?
      modifies this`serial, this`users
      ensures Valid()
      ensures serial == old(serial) + 1 && u == row.(id := Generated(old(serial)))
      ensures users == old(users) + [u]
    {
      u := row.(id := Generated(serial));
      AddUser(sessions, jwt, users, centres, cursos, serial, u);
      users := users + [u];
      serial := serial + 1;
    }

    /** `user.delete` of row `k`; the user's sessions go with it. */
    method DeleteUser(k: nat)
      requires Valid() && k < |users|
      modifies this`users, this`sessions
      ensures Valid()
      ensures users == RemoveAt(old(users), k)
      ensures sessions == SessionsNotOf(old(sessions), old(users)[k].id)
    {
      RemoveUser(sessions, jwt, users, centres, cursos, serial, k);
      sessions := SessionsNotOf(sessions, users[k].id);
      users := RemoveAt(users, k);
    }

    /** `centre.create`: the row gets the next fresh id. */
    method CreateCentre(row: Centre) returns (c: Centre)
      requires Valid()
      modifies this`serial, this`centres
      ensures Valid()
      ensures serial == old(serial) + 1 && c == row.(id := Generated(old(serial)))
      ensures centres == old(centres) + [c]
    {
      c := row.(id := Generated(serial));
      AddCentre(users, centres, cursos, serial, c);
      centres := centres + [c];
      serial := serial + 1;
    }

    /** `centre.update` of row `k` with a row that keeps its id. */
    method UpdateCentre(k: nat, c: Centre)
      requires Valid() && k < |centres| && c.id == centres[k].id
      modifies this`centres
      ensures Valid()
      ensures centres == old(centres)[k := c]
    {
      KeyedUpdate(centres, IdOfCentre, serial, k, c);
      centres := centres[k := c];
    }

    /** `centre.delete` of row `k`. */
    method DeleteCentre(k: nat)
      requires Valid() && k < |centres|
      modifies this`centres
      ensures Valid()
      ensures centres == RemoveAt(old(centres), k)
    {
      KeyedRemoveAt(centres, IdOfCentre, serial, k);
      centres := RemoveAt(centres, k);
    }

    /** `curs.create`: the row gets the next fresh id. */
    method CreateCurs(row: Curs) returns (c: Curs)
      requires Valid()
      modifies this`serial, this`cursos
      ensures Valid()
      ensures serial == old(serial) + 1 && c == row.(id := Generated(old(serial)))
      ensures cursos == old(cursos) + [c]
    {
      c := row.(id := Generated(serial));
      AddCurs(users, centres, cursos, serial, c);
      cursos := cursos + [c];
      serial := serial + 1;
    }

    /** `curs.update` of row `k` with a row that keeps its id. */
    method UpdateCurs(k: nat, c: Curs)
      requires Valid() && k < |cursos| && c.id == cursos[k].id
      modifies this`cursos
      ensures Valid()
      ensures cursos == old(cursos)[k := c]
    {
      KeyedUpdate(cursos, IdOfCurs, serial, k, c);
      cursos := cursos[k := c];
    }

    /** `curs.delete` of row `k`. */
    method DeleteCurs(k: nat)
      requires Valid() && k < |cursos|
      modifies this`cursos
      ensures Valid()
      ensures cursos == RemoveAt(old(cursos), k)
    {
      KeyedRemoveAt(cursos, IdOfCurs, serial, k);
      cursos := RemoveAt(cursos, k);
    }
  }
}
