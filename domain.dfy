/**
 * The records the backend keeps: users, their sessions, centres, cursos, the
 * rows that hang off a curs (assignatures, professors, alumnes) and the audit
 * rows, plus the identity that authentication attaches to a request.
 */
module Domain {
  import opened Wrappers
  import opened Seqs
  import opened Js

  datatype Role = SuperAdmin | AdminCentre | AdminCurs

  /** The role as it is stored and compared: `'SUPERADMIN'`, `'ADMIN_CENTRE'`, `'ADMIN_CURS'`. */
  function RoleName(r: Role): string {
    match r
    case SuperAdmin => "SUPERADMIN"
    case AdminCentre => "ADMIN_CENTRE"
    case AdminCurs => "ADMIN_CURS"
  }

  /** Reading a role string back: exactly the three names are roles. */
  function RoleOf(s: string): (r: Option<Role>)
    ensures r.Some? ==> RoleName(r.value) == s
    ensures r.None? ==> forall x: Role :: RoleName(x) != s
  {
    if s == "SUPERADMIN" then Some(SuperAdmin)
    else if s == "ADMIN_CENTRE" then Some(AdminCentre)
    else if s == "ADMIN_CURS" then Some(AdminCurs)
    else None
  }

  datatype UserStatus = Active | Inactive | Pending | Suspended

  /** The status as it is stored and compared: `'ACTIVE'`, `'INACTIVE'`, `'PENDING'`, `'SUSPENDED'`. */
  function StatusName(s: UserStatus): string {
    match s
    case Active => "ACTIVE"
    case Inactive => "INACTIVE"
    case Pending => "PENDING"
    case Suspended => "SUSPENDED"
  }

  /** The two-valued status of centres, cursos and the rows under a curs. */
  datatype OrgStatus = OrgActive | OrgInactive

  function OrgStatusName(s: OrgStatus): string {
    match s
    case OrgActive => "ACTIVE"
    case OrgInactive => "INACTIVE"
  }

  /**
   * A stored password column: a bcrypt hash, which remembers the plaintext
   * it was made from (hashing is not modelled), or a text written into the
   * column as it came, without hashing.
   */
  datatype PasswordHash = Bcrypt(plain: string) | Raw(stored: string)

  /** `bcrypt.compare(plain, hash)`: only a bcrypt hash can match. */
  predicate PasswordMatches(plain: string, h: PasswordHash) {
    h.Bcrypt? && h.plain == plain
  }

  /** Times are milliseconds since the epoch. */
  datatype User = User(
    id: string,
    email: string,
    password: PasswordHash,
    firstName: string,
    lastName: string,
    role: Role,
    status: UserStatus,
    centreId: Option<string>,
    cursId: Option<string>,
    lastLogin: Option<nat>,
    createdAt: nat,
    createdBy: Option<string>)

  datatype Session = Session(id: string, userId: string, token: string, refreshToken: string, expiresAt: nat)

  datatype Centre = Centre(id: string, nom: string, codi: string, emailDomain: string, status: OrgStatus, createdAt: nat)

  datatype Curs = Curs(id: string, nom: string, codi: string, centreId: string, status: OrgStatus, createdAt: nat)

  /** An assignatura, professor or alumne: only the curs it belongs to and its status matter here. */
  datatype Member = Member(id: string, cursId: string, status: OrgStatus)

  /** A stored audit row. */
  datatype LogRow = LogRow(
    id: string,
    action: Option<string>,
    table: Option<string>,
    recordId: Option<string>,
    userId: Option<string>,
    ipAddress: Option<string>,
    userAgent: Option<string>,
    details: Option<Json>,
    centreId: Option<string>,
    timestamp: nat,
    createdAt: nat)

  /** `req.user` as the authentication middleware sets it. */
  datatype Identity = Identity(id: string, email: string, role: Role, centreId: Option<string>, cursId: Option<string>)

  /** `req.user!.role === 'SUPERADMIN' || centreId === req.user!.centreId`: the tenant test of the resource handlers. */
  predicate SeesCentre(caller: Identity, centreId: Option<string>) {
    caller.role == SuperAdmin || centreId == caller.centreId
  }

  /** `req.ip` and the `User-Agent` header, which handlers copy into audit rows. */
  datatype Client = Client(ip: Option<string>, userAgent: Option<string>)

  // ---------------------------------------------------------------- lookups

  function UserById(users: seq<User>, id: string): (r: Option<nat>)
    ensures r.Some? ==> r.value < |users| && users[r.value].id == id
    ensures r.Some? ==> forall j :: 0 <= j < r.value ==> users[j].id != id
    ensures r.None? ==> forall j :: 0 <= j < |users| ==> users[j].id != id
  {
    FirstIndex(users, (u: User) => u.id == id)
  }

  function UserByEmail(users: seq<User>, email: string): (r: Option<nat>)
    ensures r.Some? ==> r.value < |users| && users[r.value].email == email
    ensures r.Some? ==> forall j :: 0 <= j < r.value ==> users[j].email != email
    ensures r.None? ==> forall j :: 0 <= j < |users| ==> users[j].email != email
  {
    FirstIndex(users, (u: User) => u.email == email)
  }

  function CentreById(centres: seq<Centre>, id: string): (r: Option<nat>)
    ensures r.Some? ==> r.value < |centres| && centres[r.value].id == id
    ensures r.None? ==> forall j :: 0 <= j < |centres| ==> centres[j].id != id
  {
    FirstIndex(centres, (c: Centre) => c.id == id)
  }

  function CursById(cursos: seq<Curs>, id: string): (r: Option<nat>)
    ensures r.Some? ==> r.value < |cursos| && cursos[r.value].id == id
    ensures r.None? ==> forall j :: 0 <= j < |cursos| ==> cursos[j].id != id
  {
    FirstIndex(cursos, (c: Curs) => c.id == id)
  }

  // ---------------------------------------------------------------- unique columns

  function IdOfUser(u: User): string { u.id }
  function EmailOfUser(u: User): string { u.email }
  function IdOfCentre(c: Centre): string { c.id }
  function IdOfCurs(c: Curs): string { c.id }
  function TokenOfSession(s: Session): string { s.token }

  /** With unique ids, looking a user up by the id of row `k` finds row `k`. */
  lemma UserByIdAt(users: seq<User>, k: nat)
    requires DistinctKeys(users, IdOfUser) && k < |users|
    ensures UserById(users, users[k].id) == Some(k)
  {
    var r := UserById(users, users[k].id);
    DistinctKeyAt(users, IdOfUser, k, r.value);
  }

  lemma UserByEmailAt(users: seq<User>, k: nat)
    requires DistinctKeys(users, EmailOfUser) && k < |users|
    ensures UserByEmail(users, users[k].email) == Some(k)
  {
    var r := UserByEmail(users, users[k].email);
    DistinctKeyAt(users, EmailOfUser, k, r.value);
  }

  /** Rewriting a user without touching its id leaves the lookup by id as it was. */
  lemma UserByIdAfterUpdate(users: seq<User>, k: nat, u: User, id: string)
    requires k < |users| && u.id == users[k].id
    ensures UserById(users[k := u], id) == UserById(users, id)
  {
    assert forall j :: 0 <= j < |users| ==> users[k := u][j].id == users[j].id;
  }

  /** Rewriting a user without touching its id or email leaves both lookups as they were. */
  lemma LookupsAfterUpdate(users: seq<User>, k: nat, u: User, id: string, email: string)
    requires k < |users| && u.id == users[k].id && u.email == users[k].email
    ensures UserById(users[k := u], id) == UserById(users, id)
    ensures UserByEmail(users[k := u], email) == UserByEmail(users, email)
  {
    assert forall j :: 0 <= j < |users| ==> users[k := u][j].id == users[j].id && users[k := u][j].email == users[j].email;
  }


  /** Whether an optional reference names a row that exists (`undefined` references nothing and is fine). */
  predicate CentreRefOk(centres: seq<Centre>, id: Option<string>) {
    id.None? || CentreById(centres, id.value).Some?
  }

  predicate CursRefOk(cursos: seq<Curs>, id: Option<string>) {
    id.None? || CursById(cursos, id.value).Some?
  }
}
