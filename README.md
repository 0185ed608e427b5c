# Access control, resource rules and audit logging of a school-management backend

This project models, in Dafny, the core of a school-management application.
It has an Express/Prisma backend in TypeScript and a React frontend. The
modelled parts are:

- **Authentication.** The middleware decides whether a request is signed
  in: bearer token, signature and expiry, an active user, and a live session
  for that token. The `/api/auth` routes change the session store: login,
  refresh, logout, register, verify and change-password.
- **Role and tenant gates.** These are `requireRole` and its three fixed
  instances, plus the centre, curs and user access checks.
- **Resource handlers.** The `/api/users`, `/api/cursos` and `/api/centres`
  handlers each run an ordered chain of checks (400, 403, 404, 409), make one
  table change, and write an audit row.
- **Audit logging.** This covers the helpers that store a row, the two
  `res.send` interceptors with their path heuristics, the log queries and
  the retention cleanup.
- **Errors and validators.** This is error construction and masking, plus
  the id, pagination and upload validators.
- **Frontend.** Two components are modelled: the route guard, and the
  generic data table (search, sort toggle, paging range and button state,
  and what it renders).

The modules follow the source files:

| module | models |
|---|---|
| `AuthMiddleware` | `backend/src/middleware/auth.ts` |
| `AuthRoutes` | `backend/src/routes/auth.ts` |
| `UsersRoutes` | `backend/src/routes/users.ts` |
| `CursosRoutes` | `backend/src/routes/cursos.ts` |
| `CentresRoutes` | `backend/src/routes/centres.ts` |
| `ActivityLog` | `backend/src/utils/activityLogger.ts` |
| `ActivityMiddleware` | `backend/src/middleware/activityLogger.ts` |
| `ErrorHandler` | `backend/src/middleware/errorHandler.ts` |
| `DataTable` | `frontend/src/components/ui/DataTable.tsx` |
| `ProtectedRoute` | `frontend/src/components/auth/ProtectedRoute.tsx` |

The shared modules are:

- `Wrappers`: `Option` and `Result`.
- `Strings`: decimal rendering, substring search, `replace`, `split`, lower
  case.
- `Js`: JSON values, truthiness, `parseInt`.
- `Seqs`: filter, count, reverse, the skip/take page, listing arithmetic.
- `Domain`: the rows of the tables, and lookups by id and by email.
- `Http`: requests and responses. `Request` and `Response` are classes,
  because the middleware writes `req.user`, `req.query` and `res.send` in
  place.
- `Store`: the database as one class `Db`.

`Db` holds:

- the tables as sequences in insertion order;
- the signed-token registry;
- a counter that hands out fresh names for row ids and tokens;
- the clock in milliseconds.

`Db.Valid()` states that:

- all names handed out are distinct;
- row ids, user emails and session tokens are unique;
- every session's token was signed for that session's user;
- the log is in time order.

Every state-changing method keeps `Db.Valid()`.

Modelling choices:

- **State changes.** Every handler that changes state is a method that
  takes the `Db`. The `Db` methods mirror the Prisma calls it makes. Its
  `ensures` gives the answer and the whole new state, in every branch, in
  terms of a pure check function.
- **Check functions.** The ordered checks are those pure functions, such as
  `UsersRoutes.CreateUserCheck`. Their contracts state each error in its
  order, and the exact condition for success as an if-and-only-if.
- **How a handler ends.** An `Outcome` is one of three things:
  - `Served`: the success answer;
  - `Stopped`: an answer the handler writes itself;
  - `Failed`: an `AppError` raised with `createError` and answered by the
    error middleware.

## Model

| member | source | states |
|---|---|---|
| AuthMiddleware.ExtractBearer | backend/src/middleware/auth.ts:23 | The header `Bearer <t>` yields exactly `t`, because only the first `Bearer ` is removed |
| AuthMiddleware.IdentityOf | backend/src/middleware/auth.ts:68-74 | `req.user` carries the user's id, email and role, with a null centre or curs left undefined |
| AuthMiddleware.Authenticate | backend/src/middleware/auth.ts:21-84 | Every rejection uses one of the four 401 messages of the middleware's checks |
| AuthMiddleware.MissingTokenRejected | backend/src/middleware/auth.ts:23-30 | A missing or empty token gets 401 'Token d'autenticació requerit', whatever the users, sessions and tokens |
| AuthMiddleware.PassIff | backend/src/middleware/auth.ts:33-76 | A request passes exactly when all of these hold: the token verifies with the access secret; it names an existing active user; a session holds that token for that user with `expiresAt > now`. The identity is then that user's |
| AuthMiddleware.NoSessionNoPass | backend/src/middleware/auth.ts:52-65 | A valid token is refused when no unexpired session holds it |
| AuthMiddleware.Authenticator | backend/src/middleware/auth.ts:21-84 | The step-by-step middleware, including the session scan, agrees with `Authenticate`. It sets `req.user` only on success and answers 401 otherwise |
| AuthMiddleware.RequireRole | backend/src/middleware/auth.ts:87-105 | No user gives 401. Otherwise the gate passes iff the role is listed, and refuses with 403 |
| AuthMiddleware.RoleGatesNest | backend/src/middleware/auth.ts:108-114 | The superadmin gate admits exactly superadmins, and the centre gate superadmins and centre admins; the curs gate admits every user. Each gate admits whoever the stricter one admits |
| AuthMiddleware.RequireCentreAccess | backend/src/middleware/auth.ts:117-148 | No user gives 401. Otherwise the gate passes iff the caller is superadmin or its centre equals the param-or-body centre (undefined equals undefined). The refusal is 403 |
| AuthMiddleware.CentreGateUndefinedMatches | backend/src/middleware/auth.ts:126-140 | An admin without a centre passes for a request that names no centre |
| AuthMiddleware.RequireCursAccess | backend/src/middleware/auth.ts:151-184 | No user gives 401. Otherwise the gate passes iff the caller is superadmin, is centre admin (unchecked), or has the requested curs. The refusal is 403 |
| AuthMiddleware.RequireUserAccess | backend/src/middleware/auth.ts:187-213 | No user gives 401. Otherwise the gate passes iff the caller is superadmin or is the requested user. The refusal is 403 |
| AuthRoutes.LoginCheck | backend/src/routes/auth.ts:28-70 | Invalid input gives 400. An unknown email and a wrong password give the same 401. 'El compte no està actiu' comes only after a correct password. Success means an active user whose password matched |
| AuthRoutes.LoginSucceedsIff | backend/src/routes/auth.ts:40-70 | With unique emails, login succeeds iff the input is valid and some active user has that email and password |
| AuthRoutes.Login | backend/src/routes/auth.ts:26-148 | On refusal nothing changes. On success: the two tokens are signed (1 h and 7 d); exactly one session `{userId, token, refreshToken, now + 7 days}` is appended; `lastLogin` is set; a LOGIN row is logged. The answer carries `expiresIn` 3600 |
| AuthRoutes.OpenSession | backend/src/routes/auth.ts:72-118 | The tokens, the session, `lastLogin` and the LOGIN row of a successful login, and nothing else |
| AuthRoutes.IssueTokens | backend/src/routes/auth.ts:73-92 | The access token holds the user's claims for one hour. The refresh token holds only the id and email, for seven days. The new access token is held by no existing session |
| AuthRoutes.RecordSession | backend/src/routes/auth.ts:95-108 | Appends exactly one session with the new tokens, and sets `lastLogin` |
| AuthRoutes.RecordLogin | backend/src/routes/auth.ts:95-118 | Appends the session, sets `lastLogin`, and writes the LOGIN audit row |
| AuthRoutes.SessionTokenPasses | backend/src/middleware/auth.ts:33-76 | A live session holding a validly signed access token passes as its user iff that user is active |
| AuthRoutes.LoginTokenPasses | backend/src/routes/auth.ts:73-108 | After login, the new access token passes the middleware as the user who signed in, throughout its hour |
| AuthRoutes.RefreshCheck | backend/src/routes/auth.ts:153-222 | A falsy token gives 400. A bad signature, the wrong secret or a non-string gives 401 'Refresh token invàlid'. Otherwise the result is the first session with this refresh token, this user and `expiresAt > now`, else 401 'Refresh token invàlid o expirat'. The users table is not consulted |
| AuthRoutes.AccessTokenCannotRefresh | backend/src/routes/auth.ts:163-222 | An access token presented as refresh token is refused with 401 |
| AuthRoutes.Refresh | backend/src/routes/auth.ts:151-223 | On refusal nothing changes. On success a new access token is signed and written over that one session's `token`; every other session and field is unchanged |
| AuthRoutes.RenewSession | backend/src/routes/auth.ts:189-206 | Only session `i`'s `token` changes, to a freshly signed access token for the session's user |
| AuthRoutes.RefreshRevokesPreviousToken | backend/src/routes/auth.ts:202-206 | After a refresh, the session's previous access token no longer passes the middleware |
| AuthRoutes.RenewedTokenPassesIff | backend/src/routes/auth.ts:166-206 | After a refresh, the new token passes iff the session's user is active, so inactive users are refreshed too |
| AuthRoutes.Logout | backend/src/routes/auth.ts:226-248 | A falsy token changes nothing. A truthy string deletes exactly the sessions holding it. A truthy object of string filters (`equals`, `not`, `contains`, `startsWith`, `endsWith`) deletes exactly the sessions whose refresh token it selects. These answer 'Logout exitós'. Any other truthy value answers 500 and changes nothing |
| AuthRoutes.LogoutIdempotent | backend/src/routes/auth.ts:230-235 | Logging out twice with a token equals logging out once |
| AuthRoutes.LogoutRevokes | backend/src/routes/auth.ts:230-235 | After logout, the access token of every session that held the refresh token stops passing |
| AuthRoutes.NotEmptyFilterLogsOutEveryone | backend/src/routes/auth.ts:228-234 | The body value `{"not": ""}` is a string filter, and the sessions it leaves are exactly those with an empty refresh token |
| AuthRoutes.NotEmptyFilterEmptiesSessions | backend/src/routes/auth.ts:228-234 | When no refresh token is empty, that value deletes every session, and `/logout` needs no login |
| AuthRoutes.RegisterCheck | backend/src/routes/auth.ts:253-274 | Invalid input gives 400, then an existing email gives 400. Success needs a free email and existing references |
| AuthRoutes.RegisteredUser | backend/src/routes/auth.ts:277-290 | The new row has the given email and role, a hash of the password, no last login, and `createdBy` set to the caller if there is one |
| AuthRoutes.Register | backend/src/routes/auth.ts:251-333 | On refusal no user is created. On success exactly one user is appended and a CREATE row without the password is logged |
| AuthRoutes.VerifyToken | backend/src/routes/auth.ts:336-389 | Every refusal is 401. Success names an active user |
| AuthRoutes.VerifyIsAuthenticationWithoutSessions | backend/src/routes/auth.ts:336-364 | Verify refuses whatever the middleware refuses. When verify succeeds, the middleware passes iff a live session holds the token. Sessions are never consulted by verify |
| AuthRoutes.ChangePasswordCheck | backend/src/routes/auth.ts:397-435 | The order is 400 invalid, then 401 without a caller, then 404, then 400 wrong current password. Success means the caller's row with a matching password |
| AuthRoutes.ChangePassword | backend/src/routes/auth.ts:392-474 | On refusal nothing changes. On success only the caller's password hash changes, all and only the caller's sessions are deleted, and an UPDATE row is logged |
| AuthRoutes.PasswordChangeSignsOut | backend/src/routes/auth.ts:446-449 | After a password change no request authenticates as that user |
| AuthRoutes.OnlyNewPasswordLogsIn | backend/src/routes/auth.ts:437-444 | After the change the old password gets 'Credencials invàlides', and the new one logs in iff the user is active |
| UsersRoutes.BuildUserWhere | backend/src/routes/users.ts:20-45 | The `where`, built by assignments, is `UserWhereOf`: the given filters, with the caller's own centre forced below the superadmin |
| UsersRoutes.ListUsers | backend/src/routes/users.ts:16-95 | The answer is the matching users, newest first, skipping `(page-1)*limit` and taking `limit`, with the total and `ceil(total/limit)` |
| UsersRoutes.ListStaysInCentre | backend/src/routes/users.ts:42-45 | Below the superadmin, every listed user belongs to the caller's centre, whatever the query |
| UsersRoutes.CentreParamIgnored | backend/src/routes/users.ts:38-45 | Below the superadmin, the `centreId` query parameter has no effect |
| UsersRoutes.GetUser | backend/src/routes/users.ts:98-144 | The order is 400 (short id), then 404, then 403 for another centre. It serves iff the user exists and the caller sees its centre, and the result is that row |
| UsersRoutes.ReferenceCheck | backend/src/routes/users.ts:182-211 | Passes iff a given centre exists and is visible and a given curs exists in a visible centre. Every refusal is 403 or 404 |
| UsersRoutes.CreateUserCheck | backend/src/routes/users.ts:150-211 | The order is 400 validation, then 403 for creating a superadmin below superadmin, then 403 for a centre admin creating a centre admin, then 409 for a taken email, then the references. Passes iff all hold |
| UsersRoutes.CreateNeverEscalates | backend/src/routes/users.ts:164-170 | Behind `requireAdminCentre`, a successful create is by a superadmin or creates a curs admin |
| UsersRoutes.CreateUser | backend/src/routes/users.ts:147-272 | A gate or check refusal changes nothing. Success appends exactly the new user and, when the caller has an id, a CREATE/users row with its id |
| UsersRoutes.Updated | backend/src/routes/users.ts:349-352 | The given fields replace the stored ones, including the unvalidated email and password. A given password is stored unhashed. Id, last login and creation time are kept |
| UsersRoutes.UpdateUserCheck | backend/src/routes/users.ts:278-352 | The order is 400, then 404, then 403 tenant, then the two role rules on the new role, then the references, then the unique email: another user's email gives the constraint error (500). Passes iff all hold, with the target's row as result |
| UsersRoutes.PasswordUpdateLocksOut | backend/src/routes/users.ts:289-386 | After a password is sent in the body, no plaintext matches the stored column, and the password is kept as given in the `dadesNoves` of the UPDATE row |
| UsersRoutes.UpdateNeverPromotesToSuperAdmin | backend/src/routes/users.ts:309-311 | Below the superadmin, a successful update never makes a user superadmin who was not one |
| UsersRoutes.UpdateUser | backend/src/routes/users.ts:275-398 | A refusal changes nothing. Success rewrites exactly that row, with any given email and password, and logs UPDATE/users with the id and the given fields |
| UsersRoutes.DeleteUserCheck | backend/src/routes/users.ts:404-429 | The order is 404, then 403 tenant, then 400 self-delete, then 403 for a superadmin target by a non-superadmin. Passes iff none applies |
| UsersRoutes.DeleteUser | backend/src/routes/users.ts:401-454 | A refusal changes nothing. Success removes exactly that user row, and its sessions, and logs DELETE/users with the id |
| UsersRoutes.DeletedUserSignedOut | backend/src/routes/users.ts:431-433 | Once the row is removed, no request authenticates as that user, whatever sessions remain |
| CursosRoutes.BuildCursWhere | backend/src/routes/cursos.ts:19-39 | The `where` of the list is `CursWhereOf`: the caller's centre forced below the superadmin |
| CursosRoutes.ListCursos | backend/src/routes/cursos.ts:15-79 | Matching cursos, newest first, one page, with the total and page count |
| CursosRoutes.ListStaysInCentre | backend/src/routes/cursos.ts:36-39 | Below the superadmin, every listed curs is in the caller's centre |
| CursosRoutes.FindCurs | backend/src/routes/cursos.ts:131-138 | 404 for an unknown id, then 403 for another centre. Otherwise the curs's row |
| CursosRoutes.GetCurs | backend/src/routes/cursos.ts:82-144 | 400 for a short id, then the lookup. It serves iff the lookup succeeds, with a curs visible to the caller |
| CursosRoutes.CursLogRejected | backend/src/routes/cursos.ts:193-201 | The audit object uses keys `createActivityLog` does not read, so it carries no action and no table, and the insert rejects it |
| CursosRoutes.LogCurs | backend/src/routes/cursos.ts:193-201 | An unguarded audit call that leaves the log as it was |
| CursosRoutes.CodiTakenIff | backend/src/routes/cursos.ts:174-183 | The duplicate query finds a curs iff some curs of that centre other than the excluded one has the code |
| CursosRoutes.CreateCursCheck | backend/src/routes/cursos.ts:150-183 | The order is 400, then 403 for a foreign centre, then 404 for a missing centre, then 409 for the code taken in that centre. Passes iff none applies |
| CursosRoutes.CreatedInOwnCentre | backend/src/routes/cursos.ts:160-162 | Below the superadmin, a created curs is always in the caller's own centre |
| CursosRoutes.CreateCurs | backend/src/routes/cursos.ts:147-210 | A refusal changes nothing. Success appends exactly one curs and its audit call is rejected, leaving the log unchanged |
| CursosRoutes.UpdatedCurs | backend/src/routes/cursos.ts:258-261 | The given fields replace the stored ones, including the unvalidated centre. Id and creation time are kept |
| CursosRoutes.UpdateCursCheck | backend/src/routes/cursos.ts:216-261 | The order is 400, then the lookup (404, 403), then 409 only when a code is given and another curs of the curs's present centre has it, then the foreign key: a given centre that does not exist gives the constraint error (500) |
| CursosRoutes.CursMovesAcrossCentres | backend/src/routes/cursos.ts:222-261 | A centre admin can move a curs of their centre into any other existing centre, which they then do not see |
| CursosRoutes.MoveSkipsCodiCheck | backend/src/routes/cursos.ts:243-261 | Moving a curs together with the code of a curs in the target centre passes, leaving two cursos of that centre with one code |
| CursosRoutes.OwnCodiNoConflict | backend/src/routes/cursos.ts:238-248 | Resubmitting a curs's own code is no conflict |
| CursosRoutes.UpdateCurs | backend/src/routes/cursos.ts:213-280 | A refusal changes nothing. Success rewrites exactly that row and its audit call is rejected, leaving the log unchanged |
| CursosRoutes.DeleteCursCheck | backend/src/routes/cursos.ts:286-312 | The lookup (404, 403), then 400 when any subject, teacher or student belongs to the curs. Passes iff neither applies |
| CursosRoutes.DeletedCursUnreferenced | backend/src/routes/cursos.ts:300-312 | A deletable curs has no subject, teacher or student pointing at it |
| CursosRoutes.DeletedCursGone | backend/src/routes/cursos.ts:314-316 | The delete removes that id and keeps every other curs |
| CursosRoutes.DeleteCurs | backend/src/routes/cursos.ts:283-334 | A refusal changes nothing. Success removes exactly that row and its audit call is rejected, leaving the log unchanged |
| CursosRoutes.TallyOf | backend/src/routes/cursos.ts:353-367 | Each active count is at most its total, which is at most the table size |
| CursosRoutes.CursStatistics | backend/src/routes/cursos.ts:337-380 | 400, then the lookup, then the three tallies, each active count at most its total |
| CentresRoutes.BuildCentreWhere | backend/src/routes/centres.ts:20-32 | The `where` of the list is only the search and status, with no tenant restriction |
| CentresRoutes.ListCentres | backend/src/routes/centres.ts:16-64 | Matching centres, newest first, one page, with the total and page count |
| CentresRoutes.UnfilteredListIsEverything | backend/src/routes/centres.ts:20-32 | Without a search or status filter, any caller's total is the whole table |
| CentresRoutes.FindCentre | backend/src/routes/centres.ts:101-103 | Fails (404) iff the id is unknown. There is no tenant check |
| CentresRoutes.GetCentre | backend/src/routes/centres.ts:67-109 | 400 for a short id, then 404. It serves iff the centre exists, for any caller |
| CentresRoutes.CreateCentreCheck | backend/src/routes/centres.ts:115-136 | 400 validation, then 409. It passes iff no centre has the same code or the same email domain |
| CentresRoutes.CreateKeepsKeysUnique | backend/src/routes/centres.ts:125-144 | A successful create keeps codes and domains pairwise unique |
| CentresRoutes.CreateCentre | backend/src/routes/centres.ts:112-166 | Superadmin only. A refusal changes nothing. Success appends exactly one centre and logs CREATE/centres when the caller has an id |
| CentresRoutes.UpdatedCentre | backend/src/routes/centres.ts:209-212 | The validated fields that are given replace the stored ones. Id and creation time are kept |
| CentresRoutes.UpdateCentreCheck | backend/src/routes/centres.ts:172-207 | 400, then 404. The duplicate check runs only when a code or domain is given, and excludes the centre itself. Passes iff no other centre clashes |
| CentresRoutes.OwnKeysNoClash | backend/src/routes/centres.ts:193-207 | With unique keys, resubmitting a centre's own code and domain passes |
| CentresRoutes.UpdateCentre | backend/src/routes/centres.ts:169-234 | Superadmin only. A refusal changes nothing. Success rewrites exactly that row and logs UPDATE/centres |
| CentresRoutes.DeleteCentreCheck | backend/src/routes/centres.ts:240-260 | 404, then 400 when any user or curs belongs to the centre. Passes iff neither applies |
| CentresRoutes.DeletedCentreUnreferenced | backend/src/routes/centres.ts:253-260 | A deletable centre has no user and no curs pointing at it |
| CentresRoutes.DeletedCentreGone | backend/src/routes/centres.ts:262-264 | The delete removes that id and keeps every other centre |
| CentresRoutes.DeleteCentre | backend/src/routes/centres.ts:237-284 | Superadmin only. A refusal changes nothing. Success removes exactly that row and logs DELETE/centres with the raw `req.ip` |
| CentresRoutes.UserTally | backend/src/routes/centres.ts:306-309 | The centre's active users are at most its users, which are at most the table |
| CentresRoutes.CursTally | backend/src/routes/centres.ts:310-313 | The centre's active cursos are at most its cursos, which are at most the table |
| CentresRoutes.CentreStatistics | backend/src/routes/centres.ts:287-329 | 400, then 404, then the counts, each active count at most its total. There is no tenant check |
| CentresRoutes.DeletableCentreHasNoMembers | backend/src/routes/centres.ts:253-313 | A deletable centre has no subjects, teachers or students through its cursos |
| ActivityLog.Put | backend/src/utils/activityLogger.ts:142-183 | `data.k = v` sets `k` (undefined removes it) and leaves every other key |
| ActivityLog.StoredRowIgnoresOtherKeys | backend/src/utils/activityLogger.ts:53-66 | The stored row depends only on `accio`, `taula`, `registreId`, `userId`, `ipAddress`, `userAgent` and `dadesNoves` |
| ActivityLog.CreateActivityLog | backend/src/utils/activityLogger.ts:53-71 | It never fails. It appends the stored row when the write succeeds and the data has an action and a table, and nothing otherwise |
| ActivityLog.StoredEvent | backend/src/utils/activityLogger.ts:55-66 | Each member of a handler's audit object reaches its own column |
| ActivityLog.LogEvent | backend/src/utils/activityLogger.ts:53-71 | One audit call appends exactly the row with those columns, or nothing when the write fails |
| ActivityLog.LogIfCaller | backend/src/routes/users.ts:252-263 | The log changes only when the caller id is truthy, and then by exactly that row |
| ActivityLog.ActionFromMethod | backend/src/utils/activityLogger.ts:107-121 | POST gives CREATE, PUT or PATCH give UPDATE, DELETE gives DELETE, GET gives READ, and anything else gives UNKNOWN; UPDATE and UNKNOWN as iffs |
| ActivityLog.UrlSegments | backend/src/utils/activityLogger.ts:125-126 | The segments are non-empty and contain no `/` |
| ActivityLog.TableFromUrl | backend/src/utils/activityLogger.ts:124-133 | The third non-empty segment, else 'unknown' |
| ActivityLog.TableFromApiUrl | backend/src/utils/activityLogger.ts:124-133 | On `/api/<t>` it gives 'unknown', because the comment's example is not what the code does. On `/api/<t>/<x>/…` it gives `x` |
| ActivityLog.AddSpecificData | backend/src/utils/activityLogger.ts:136-185 | `registreId` comes from the 4th segment unless that is 'search' or 'stats'. The table's id keys follow the switch on the 8 tables. `dadesNoves` is the body only for POST, PUT and PATCH. Every other key is unchanged |
| ActivityLog.AssignTableIds | backend/src/utils/activityLogger.ts:146-179 | The switch performs exactly the listed assignments of the selected table |
| ActivityLog.WithRecordId | backend/src/utils/activityLogger.ts:137-143 | Only `registreId` may change, as the URL rule says |
| ActivityLog.InstallActivityLogger | backend/src/utils/activityLogger.ts:25-51 | It installs the wrapper and calls `next()` |
| ActivityLog.StoredInterceptedRow | backend/src/utils/activityLogger.ts:28-48 | Whatever `addSpecificData` adds, the stored row is action, table, record id, user, IP, agent and the body for writes |
| ActivityLog.UtilsAuditOnSend | backend/src/utils/activityLogger.ts:28-48 | Only a signed-in user's non-GET request is logged, with that row. Otherwise the log is unchanged |
| ActivityLog.NewestFirst | backend/src/utils/activityLogger.ts:86-103 | A filtered, reversed and paged log is newest first, by both time columns. Every returned row is a stored row passing the filter |
| ActivityLog.GetActivityLogs | backend/src/utils/activityLogger.ts:73-104 | Filters only on truthy arguments, newest first, then skips `offset` (0) and takes `limit` (100) |
| ActivityLog.GetUserActivityHistory | backend/src/utils/activityLogger.ts:237-253 | That user's rows, newest first, at most `limit` (50) |
| ActivityLog.GetCentreActivityHistory | backend/src/utils/activityLogger.ts:256-272 | The rows of that centre, newest first, at most `limit` (50) |
| ActivityLog.StoredRowHasNoCentre | backend/src/utils/activityLogger.ts:55-66 | `createActivityLog` never fills the centre column |
| ActivityLog.CentreHistoryEmpty | backend/src/utils/activityLogger.ts:256-272 | A log without centre columns gives an empty centre history |
| ActivityLog.CleanupOldLogs | backend/src/utils/activityLogger.ts:275-289 | It removes exactly the rows with `createdAt < cutoff` (90 days by default) and returns their number. Those rows are the oldest prefix |
| ActivityLog.LogAuthActivity | backend/src/utils/activityLogger.ts:188-197 | A row on 'users' with the user as both record and actor |
| ActivityLog.LogPasswordChange | backend/src/utils/activityLogger.ts:200-209 | A PASSWORD_CHANGE row on 'users' with the user as both record and actor |
| ActivityLog.LogAccessDenied | backend/src/utils/activityLogger.ts:212-220 | An ACCESS_DENIED row with the resource as table and no record |
| ActivityLog.LogSystemError | backend/src/utils/activityLogger.ts:223-234 | A SYSTEM_ERROR row on 'system' whose details hold the error, the stack and the context |
| ActivityMiddleware.TableFromPath | backend/src/middleware/activityLogger.ts:38-44 | The third piece of the unfiltered split, else 'unknown' |
| ActivityMiddleware.RecordIdFromPath | backend/src/middleware/activityLogger.ts:47-53 | The fourth piece, else null |
| ActivityMiddleware.PathHeuristicsOnApiPath | backend/src/middleware/activityLogger.ts:38-53 | On `/api/<t>/…` the table is `t` and the record is the next segment, or null |
| ActivityMiddleware.TrailingSlashRecordId | backend/src/middleware/activityLogger.ts:47-53 | `/api/<t>/` gives the record id '' rather than null |
| ActivityMiddleware.HeuristicsDisagree | backend/src/middleware/activityLogger.ts:38-44 | On a full `/api/<t>/…` path the path heuristic names the table, and the URL heuristic names nothing or the record id |
| ActivityMiddleware.ActivityLogger | backend/src/middleware/activityLogger.ts:4-35 | GET leaves `send` untouched, any other method gets the wrapper, and `next()` always follows |
| ActivityMiddleware.MiddlewareDataContents | backend/src/middleware/activityLogger.ts:15-28 | The object holds the raw method, the path's table, and details made of path, method, body and status |
| ActivityMiddleware.MiddlewareDataRejected | backend/src/middleware/activityLogger.ts:15-28 | The audit object uses keys `createActivityLog` does not read, so it carries no action and no table, and the insert rejects it |
| ActivityMiddleware.Send | backend/src/middleware/activityLogger.ts:12-32 | The original `send` always emits the same body. The audit call is made only when `req.user` is set, and it leaves the log unchanged |
| ErrorHandler.CreateError | backend/src/middleware/errorHandler.ts:58-63 | The error is operational, with the given status or 500 |
| ErrorHandler.ValidationError | backend/src/middleware/errorHandler.ts:66-68 | Status 400 |
| ErrorHandler.AuthError | backend/src/middleware/errorHandler.ts:71-73 | Status 401, with the default message 'No autoritzat' |
| ErrorHandler.PermissionError | backend/src/middleware/errorHandler.ts:76-78 | Status 403, with its default message |
| ErrorHandler.NotFoundError | backend/src/middleware/errorHandler.ts:81-83 | Status 404, with its default message |
| ErrorHandler.ConflictError | backend/src/middleware/errorHandler.ts:86-88 | Status 409, with its default message |
| ErrorHandler.DataValidationError | backend/src/middleware/errorHandler.ts:91-93 | Status 422, with its default message |
| ErrorHandler.ErrorResponse | backend/src/middleware/errorHandler.ts:16-47 | The status, or 500. The message is masked in production. The stack appears iff in development |
| ErrorHandler.ProductionRevealsOnlyStatus | backend/src/middleware/errorHandler.ts:39-47 | In production, errors with the same status get identical answers |
| ErrorHandler.HandleError | backend/src/middleware/errorHandler.ts:10-48 | Logs one SYSTEM_ERROR row with the request context, and answers with `ErrorResponse` |
| ErrorHandler.NotFound | backend/src/middleware/errorHandler.ts:50-55 | An operational 404 naming the URL |
| ErrorHandler.NotFoundAnswer | backend/src/middleware/errorHandler.ts:50-55 | An unknown route is answered 404 |
| ErrorHandler.ValidateId | backend/src/middleware/errorHandler.ts:103-114 | 400 'ID invàlid' iff the id is missing or shorter than 10 characters |
| ErrorHandler.ValidatePagination | backend/src/middleware/errorHandler.ts:117-132 | Passes iff `page >= 1` and `1 <= limit <= 100`, after `parseInt` or the defaults 1 and 10. On success `page` and `limit` in the query are rewritten; on refusal the query is unchanged |
| ErrorHandler.PaginationIdempotent | backend/src/middleware/errorHandler.ts:118-129 | The rewritten query reads back as the same numbers |
| ErrorHandler.PaginationDefaults | backend/src/middleware/errorHandler.ts:118-119 | A missing or "0" page or limit falls back to 1 or 10 |
| ErrorHandler.WholeMegabytes | backend/src/middleware/errorHandler.ts:174 | A whole number of megabytes prints as that number |
| ErrorHandler.ValidateFileSize | backend/src/middleware/errorHandler.ts:169-180 | 400 iff a file is present and its size is strictly above the limit |
| ErrorHandler.ValidateFileType | backend/src/middleware/errorHandler.ts:183-194 | 400 iff a file is present and its type is not listed |
| ErrorHandler.NoFilePasses | backend/src/middleware/errorHandler.ts:171-185 | Without a file both validators pass |
| Js.ParsedOr | backend/src/middleware/errorHandler.ts:118-119 | `parseInt(x) || d`: NaN and 0 both give the default |
| Js.ParseIntOfDecimal | backend/src/middleware/errorHandler.ts:128-129 | Parsing a number's decimal rendering gives the number back |
| Seqs.ListPage | backend/src/routes/users.ts:18-94 | The page holds at most `limit` rows. Row `i` is the `(skip+i)`-th newest matching row, and the total is the number of matches |
| Seqs.ListPageNonEmptyIff | backend/src/routes/users.ts:83 | A page has rows exactly when its number is at most `totalPages` |
| DataTable.SomeKeyMatches | frontend/src/components/ui/DataTable.tsx:61-65 | True iff some search key's value contains the term, ignoring case |
| DataTable.FilteredData | frontend/src/components/ui/DataTable.tsx:58 | An empty term or no keys return `data` unchanged |
| DataTable.FilteredMembership | frontend/src/components/ui/DataTable.tsx:60-66 | With a term and keys, an item is shown iff it is in `data` and some key's value contains the term |
| DataTable.FilteredIsSubsequence | frontend/src/components/ui/DataTable.tsx:57-67 | The shown items are an order-preserving sublist of `data` |
| DataTable.NullsNeverMatch | frontend/src/components/ui/DataTable.tsx:63 | An item whose searched values are all null or undefined is never shown |
| DataTable.SearchIgnoresTermCase | frontend/src/components/ui/DataTable.tsx:64 | Lower-casing the term first changes nothing |
| DataTable.NewOrder | frontend/src/components/ui/DataTable.tsx:72 | 'desc' iff the key is the sort key and the order is 'asc' |
| DataTable.HandleSort | frontend/src/components/ui/DataTable.tsx:69-74 | `onSort` is called iff `sorting` is given, with the key and `NewOrder` |
| DataTable.ClickTwice | frontend/src/components/ui/DataTable.tsx:69-74 | Two clicks on the sorted key restore the order. Two clicks on another key end descending |
| DataTable.SortIconOf | frontend/src/components/ui/DataTable.tsx:76-85 | Grey iff the column is unsorted. Down iff it is sorted descending |
| DataTable.IconFollowsClick | frontend/src/components/ui/DataTable.tsx:69-85 | After a stored click the icon shows the direction that was handed to `onSort` |
| DataTable.RangeOrdered | frontend/src/components/ui/DataTable.tsx:200-204 | `start <= end` for any page when `pageSize >= 1` |
| DataTable.NextEnabledIffMoreRows | frontend/src/components/ui/DataTable.tsx:190-224 | Next is enabled iff the server's next page of the same rows is non-empty |
| DataTable.RangeCountsPageRows | frontend/src/components/ui/DataTable.tsx:200-204 | On a page with rows, the range counts exactly the rows the server sends, and starts after the skipped ones |
| DataTable.Render | frontend/src/components/ui/DataTable.tsx:87-169 | A truthy error shows only the error. Loading wins over both the empty message and the rows. The empty message appears iff nothing is left after filtering. Otherwise the filtered rows are shown |
| DataTable.LoadingHidesData | frontend/src/components/ui/DataTable.tsx:137-145 | While loading the rendering does not depend on the data |
| DataTable.NoTermShowsAll | frontend/src/components/ui/DataTable.tsx:58-168 | Without a term every row is shown |
| ProtectedRoute.Guard | frontend/src/components/auth/ProtectedRoute.tsx:11-49 | Loading gives the spinner. Not authenticated gives a login redirect carrying the location. Access is denied iff a required-role list excludes a present user's role, with a redirect to '/dashboard'. The children are shown otherwise |
| ProtectedRoute.LoadingIgnoresEverything | frontend/src/components/auth/ProtectedRoute.tsx:18-24 | While loading, the result is the same whatever the other inputs |
| ProtectedRoute.EmptyRoleListDenies | frontend/src/components/auth/ProtectedRoute.tsx:32 | An empty role list denies every user with a role and admits a null user |
| ProtectedRoute.GuardAgreesWithRequireRole | frontend/src/components/auth/ProtectedRoute.tsx:32-48 | For a signed-in user, the guard admits exactly whom the backend's `requireRole` with the same list admits |
| ProtectedRoute.AdminPagesMatchBackend | frontend/src/components/auth/ProtectedRoute.tsx:32-48 | Pages guarded for SUPERADMIN and ADMIN_CENTRE admit exactly the roles `requireAdminCentre` admits |

## Left out

- **Cryptography.**
  - JWT signing and verification are a registry: `Store.Db.Sign` and
    `Store.Verify`. A token is a fresh name.
  - Expiry is compared in whole seconds. Clock skew, `notBefore` and
    algorithm choice are not modelled.
  - bcrypt is `Bcrypt(plain)`, and matching is plaintext equality, so salts
    and hash collisions are not modelled.
  - A password column written without hashing is `Raw`, which no plaintext
    matches. A stored text that is itself a bcrypt hash would match its
    plaintext; that case is not modelled.
  - The two secrets are taken to be distinct.
- **Fresh names.** Generated ids and tokens are abstract names from a
  counter, not UUIDs or JWT strings.
- **Time.** The JavaScript `Date` is the `Db.clock` field. `cleanupOldLogs`
  takes `daysToKeep` and subtracts whole days; local-time `setDate`
  arithmetic across daylight-saving changes is not modelled.
- **Prisma.**
  - `include` and `select` projections are not modelled: whole rows are
    returned.
  - `Promise.all` and transactions are not modelled.
  - "Newest first" is reverse insertion order, so rows created in the same
    millisecond are ordered by insertion.
  - Database constraints are modelled only where a handler's outcome
    depends on them: the 500 of `/register`, the unique user email and the
    curs's centre on the two update routes, and the cascade of a user's
    sessions.
  - A filter string that is not a valid enum is a Prisma error. Such a
    string simply matches nothing here.
- **express-validator.** The rules (`isEmail`, `isLength`, `isIn`, …) are a
  validation result fed into each handler: `inputValid`, or the first error
  message.
- **Update bodies.** The three update routes write `req.body` to the row as
  it came. The update datatypes hold the validated fields and the
  unvalidated columns whose effect is modelled: a user's email and password,
  and a curs's centre.
- **null and undefined.** They are one `None`, except in the JSON values
  where `null` is `JNull`.
- **Case folding.** `mode: 'insensitive'` and `toLowerCase` lower-case only
  ASCII and Latin-1 letters. Full Unicode case mapping is not modelled.
- **JSON and numbers.**
  - `String(value)` on objects and arrays is an abstract rendering.
  - Numbers are integers. DataTable's `page` and `pageSize` are integers,
    and its `total / pageSize` is a float that is never NaN except at a zero
    page size.
  - `validatePagination` writes numbers back in decimal. JavaScript's
    exponent notation for very large numbers is not modelled.
- **The megabyte message.** The limit shown by `validateFileSize` is exact
  decimal. JavaScript's rounding to the shortest double representation is
  not modelled.
- **Mount paths.**
  - The routers' mount paths are taken as `/api/<table>`.
  - `/api/auth` is mounted without `authMiddleware`, so `/register` runs
    with no caller and `/change-password` always answers 401. The methods
    take the caller as a parameter and the contracts cover both cases.
  - Inside a router, `req.path` and `req.url` are relative to the mount
    point by the time `send` runs. So in the running program neither table
    heuristic sees the `/api/<table>` prefix, and both give 'unknown'.
    `HeuristicsDisagree` is about the two functions on full paths.
  - Only the interceptor of `backend/src/middleware/activityLogger.ts` is
    mounted (backend/src/index.ts:15 and 79). The utilities' interceptor,
    `ActivityLog.InstallActivityLogger`, is installed nowhere.
- **List handlers.** They take `page` and `limit` as `validatePagination`
  leaves them.
- **`asyncHandler`.** Its forwarding of a rejected promise to `next` is the
  `Failed` outcome.
- **Rejected log writes.** A write the log table rejects is the
  `Db.auditFails` flag. Logging never changes a handler's answer.
- **Not modelled** (I/O, timers and rendering):
  - the logger (`winston`);
  - `console`, the websocket, cron, email and backup services;
  - the other route files, which are stubs;
  - React state, effects and markup. Only the decisions and the numbers the
    components compute are modelled.
- **Request context.** `req.ip` and the `User-Agent` header are the `Client`
  parameter.
- **Centre keys.** Uniqueness of a centre's `codi` and `emailDomain` is not
  part of `Db.Valid()`. `CentresRoutes.KeysUnique` is a separate predicate:
  `CreateKeepsKeysUnique` shows that creation keeps it, and `OwnKeysNoClash`
  uses it.
- AuthMiddleware.Authenticate: its own contract only lists the possible
  messages. Its meaning is stated by `PassIff`, `MissingTokenRejected` and
  `NoSessionNoPass`.
- AuthRoutes.Logout: other Prisma filter operators (`in`, `notIn`, `lt`,
  `lte`, `gt`, `gte`, `mode`, a nested `not`) and filter values that are
  not strings are answered 500. Prisma accepts some of these and deletes
  the sessions they select.
- ActivityLog.CreateActivityLog: the schema of the log table is not part of
  this model. Action and table are taken as required columns, as the
  `ActivityLogData` interface declares them, so data without them is
  rejected and nothing is stored.
- UsersRoutes.Updated: the other columns a body can set (`id`, `lastLogin`,
  `createdAt`, `createdBy`, `emailVerified`, …) are not modelled. Neither are
  body keys that are not columns, nor values of the wrong type, on which
  Prisma throws and the answer is 500.
- UsersRoutes.UpdateUser: the same body keys are not modelled. The answer is
  the whole row rather than the `select`ed fields.
- CursosRoutes.UpdatedCurs: the other columns a body can set (`id`,
  `createdAt`, …) are not modelled. Neither are body keys that are not
  columns, nor values of the wrong type (500).
- CursosRoutes.UpdateCurs: the same body keys are not modelled.
- CentresRoutes.UpdatedCentre: the columns outside the validated fields
  that a body can set (`id`, `createdAt`, …) are not modelled. Neither are
  body keys that are not columns, nor values of the wrong type (500).
- CentresRoutes.UpdateCentre: the same body keys are not modelled.
