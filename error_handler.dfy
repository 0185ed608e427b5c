/**
 * Error construction, the final error middleware and its 404 companion, and
 * the small request validators: the id-length check, pagination
 * normalisation (which rewrites `req.query` in place) and the upload checks.
 */
module ErrorHandler {
  import opened Wrappers
  import opened Strings
  import opened Js
  import opened Domain
  import opened Store
  import opened Http
  import opened ActivityLog

  /**
   * An `Error` with the optional `statusCode` and `isOperational` of
   * `AppError`. The stack is the first line `new Error(message)` records; the
   * frames below it are not modelled.
   */
  datatype AppError = AppError(message: string, statusCode: Option<nat>, isOperational: bool, stack: Option<string>)

  /**
   * How a handler ends: it answered successfully, it answered itself with an
   * error status, or it threw (or passed to `next`) an error that the error
   * middleware answers.
   */
  datatype Outcome<T> = Served(value: T) | Stopped(status: nat, message: string) | Failed(error: AppError)

  function StackOf(message: string): string {
    "Error: " + message
  }

  /** `createError(message, statusCode = 500)`: an operational error with that status. */
  function CreateError(message: string, statusCode: Option<nat>): (e: AppError)
    ensures e.message == message && e.isOperational
    ensures statusCode.Some? ==> e.statusCode == statusCode
    ensures statusCode.None? ==> e.statusCode == Some(500)
    ensures e.stack == Some(StackOf(message))
  {
    AppError(message, Some(statusCode.GetOr(500)), true, Some(StackOf(message)))
  }

  /** `createValidationError(message)`. */
  function ValidationError(message: string): (e: AppError)
    ensures e.statusCode == Some(400) && e.isOperational && e.message == message
  {
    CreateError(message, Some(400))
  }

  /** `createAuthError(message = 'No autoritzat')`. */
  function AuthError(message: Option<string>): (e: AppError)
    ensures e.statusCode == Some(401) && e.isOperational
    ensures e.message == if message.Some? then message.value else "No autoritzat"
  {
    CreateError(message.GetOr("No autoritzat"), Some(401))
  }

  /** `createPermissionError(message = 'Accés denegat')`. */
  function PermissionError(message: Option<string>): (e: AppError)
    ensures e.statusCode == Some(403) && e.isOperational
    ensures e.message == if message.Some? then message.value else "Accés denegat"
  {
    CreateError(message.GetOr("Accés denegat"), Some(403))
  }

  /** `createNotFoundError(message = 'Recurs no trobat')`. */
  function NotFoundError(message: Option<string>): (e: AppError)
    ensures e.statusCode == Some(404) && e.isOperational
    ensures e.message == if message.Some? then message.value else "Recurs no trobat"
  {
    CreateError(message.GetOr("Recurs no trobat"), Some(404))
  }

  /** `createConflictError(message = 'Conflicte de dades')`. */
  function ConflictError(message: Option<string>): (e: AppError)
    ensures e.statusCode == Some(409) && e.isOperational
    ensures e.message == if message.Some? then message.value else "Conflicte de dades"
  {
    CreateError(message.GetOr("Conflicte de dades"), Some(409))
  }

  /** `createDataValidationError(message = 'Dades invàlides')`. */
  function DataValidationError(message: Option<string>): (e: AppError)
    ensures e.statusCode == Some(422) && e.isOperational
    ensures e.message == if message.Some? then message.value else "Dades invàlides"
  {
    CreateError(message.GetOr("Dades invàlides"), Some(422))
  }

  // ---------------------------------------------------------------- the error middleware

  /** `process.env.NODE_ENV`. */
  datatype Env = Production | Development | OtherEnv

  /** The message every catch-all answer and every masked error carries. */
  const INTERNAL_ERROR := "Error intern del servidor"

  /** The JSON answer: `{ success: false, message, stack? }` with its status. */
  datatype ErrorBody = ErrorBody(status: nat, success: bool, message: string, stack: Option<string>)

  /**
   * The answer `errorHandler` sends: the error's status or 500, the message
   * masked in production, and the stack only in development.
   */
  function ErrorResponse(e: AppError, env: Env): (r: ErrorBody)
    ensures r.status == e.statusCode.GetOr(500) && !r.success
    ensures env == Production ==> r.message == INTERNAL_ERROR
    ensures env != Production ==> r.message == e.message
    ensures r.stack.Some? <==> env == Development && e.stack.Some?
    ensures r.stack.Some? ==> r.stack == e.stack
  {
    ErrorBody(e.statusCode.GetOr(500), false,
              if env == Production then INTERNAL_ERROR else e.message,
              if env == Development then e.stack else None)
  }

  /** In production the answer reveals nothing but the status: errors with equal statuses answer alike. */
  lemma ProductionRevealsOnlyStatus(e1: AppError, e2: AppError)
    requires e1.statusCode.GetOr(500) == e2.statusCode.GetOr(500)
    ensures ErrorResponse(e1, Production) == ErrorResponse(e2, Production)
  {
  }

  /** Stands for the database client's own text, which is not modelled. */
  const CONSTRAINT_VIOLATED := "Constraint violation"

  /**
   * What the database client throws when a write breaks a unique or a
   * foreign-key constraint: no `statusCode` and not operational, so the
   * error middleware answers it with 500.
   */
  function ConstraintError(): (e: AppError)
    ensures e.statusCode.None? && !e.isOperational
    ensures forall env :: ErrorResponse(e, env).status == 500
  {
    AppError(CONSTRAINT_VIOLATED, None, false, None)
  }

  /** The `context` handed to `logSystemError`: the URL, the method and the address when known. */
  function RequestContext(url: string, httpMethod: string, ip: Option<string>): map<string, Json> {
    var base := map["url" := JStr(url), "method" := JStr(httpMethod)];
    if ip.Some? then base["ip" := JStr(ip.value)] else base
  }

  /** `errorHandler(error, req, res, next)`: records a `SYSTEM_ERROR` row, then answers. */
  method HandleError(db: Db, e: AppError, req: Request, env: Env) returns (r: ErrorBody)
    requires db.Valid()
    modifies db`logs, db`serial
    ensures db.Valid() && db.serial == old(db.serial) + 1
    ensures r == ErrorResponse(e, env)
    ensures db.logs == AfterLog(old(db.logs), db.auditFails,
      LogRow(Generated(old(db.serial)), Some("SYSTEM_ERROR"), Some("system"), None,
             if req.user.Some? then Some(req.user.value.id) else None, None, None,
             Some(JObj(ErrorDetails(e.message, e.stack, Some(JObj(RequestContext(req.url, req.httpMethod, req.ip)))))),
             None, db.clock, db.clock))
  {
    var userId := if req.user.Some? then Some(req.user.value.id) else None;
    LogSystemError(db, e.message, e.stack, userId, Some(JObj(RequestContext(req.url, req.httpMethod, req.ip))));
    r := ErrorResponse(e, env);
  }

  /** `notFoundHandler`: an operational 404 naming the original URL, handed to `next`. */
  function NotFound(originalUrl: string): (e: AppError)
    ensures e.statusCode == Some(404) && e.isOperational
    ensures e.message == "Ruta no trobada: " + originalUrl
  {
    CreateError("Ruta no trobada: " + originalUrl, Some(404))
  }

  /** An unknown route is answered 404 outside production, and with the masked message inside it. */
  lemma NotFoundAnswer(originalUrl: string, env: Env)
    ensures ErrorResponse(NotFound(originalUrl), env).status == 404
    ensures env != Production ==> ErrorResponse(NotFound(originalUrl), env).message == "Ruta no trobada: " + originalUrl
  {
  }

  // ---------------------------------------------------------------- validators

  /** `validateId`: 400 iff the `id` parameter is missing, empty or shorter than ten characters. */
  function ValidateId(params: map<string, string>): (g: Gate)
    ensures g.Halt? <==> "id" !in params || |params["id"]| < 10
    ensures g.Halt? ==> g == Halt(400, "ID invàlid")
  {
    if "id" !in params || params["id"] == "" || |params["id"]| < 10 then Halt(400, "ID invàlid") else Next
  }

  /** `parseInt(req.query[key] as string) || d`; a missing parameter parses as NaN. */
  function QueryNumber(query: map<string, string>, key: string, d: int): int {
    ParsedOr(if key in query then ParseInt(query[key]) else None, d)
  }

  predicate PaginationOk(page: int, limit: int) {
    page >= 1 && 1 <= limit <= 100
  }

  /**
   * `validatePagination`: reads `page` (default 1) and `limit` (default 10),
   * rejects an out-of-range pair with 400, and otherwise writes the numbers
   * back as canonical strings before calling `next()`.
   */
  method ValidatePagination(req: Request) returns (g: Gate)
    modifies req`query
    ensures var page := QueryNumber(old(req.query), "page", 1);
      var limit := QueryNumber(old(req.query), "limit", 10);
      && (g.Next? <==> PaginationOk(page, limit))
      && (g.Halt? ==> g == Halt(400, "Paràmetres de paginació invàlids") && req.query == old(req.query))
      && (g.Next? ==> req.query == old(req.query)["page" := IntToString(page)]["limit" := IntToString(limit)])
  {
    var page := QueryNumber(req.query, "page", 1);
    var limit := QueryNumber(req.query, "limit", 10);
    if page < 1 || limit < 1 || limit > 100 {
      return Halt(400, "Paràmetres de paginació invàlids");
    }
    req.query := req.query["page" := IntToString(page)];
    req.query := req.query["limit" := IntToString(limit)];
    g := Next;
  }

  /** Normalising twice changes nothing: the rewritten query reads back as the same numbers and passes again. */
  lemma PaginationIdempotent(query: map<string, string>)
    requires PaginationOk(QueryNumber(query, "page", 1), QueryNumber(query, "limit", 10))
    ensures var page := QueryNumber(query, "page", 1);
      var limit := QueryNumber(query, "limit", 10);
      var q2 := query["page" := IntToString(page)]["limit" := IntToString(limit)];
      QueryNumber(q2, "page", 1) == page && QueryNumber(q2, "limit", 10) == limit
  {
    var page := QueryNumber(query, "page", 1);
    var limit := QueryNumber(query, "limit", 10);
    ParseIntOfDecimal(page);
    ParseIntOfDecimal(limit);
  }

  /** A zero or a missing parameter falls back to the default, so a bare request asks for the first ten. */
  lemma PaginationDefaults(query: map<string, string>)
    requires "page" !in query || query["page"] == "0"
    requires "limit" !in query || query["limit"] == "0"
    ensures QueryNumber(query, "page", 1) == 1 && QueryNumber(query, "limit", 10) == 10
  {
    if "page" in query {
      ParseIntOfDecimal(0);
    }
    if "limit" in query {
      ParseIntOfDecimal(0);
    }
  }

  /** Digits left-padded with zeros to `n` characters. */
  function PadLeft(s: string, n: nat): (r: string)
    ensures |r| == if |s| >= n then |s| else n
    decreases n - |s|
  {
    if |s| >= n then s else PadLeft("0" + s, n)
  }

  function TrimTrailingZeros(s: string): (r: string)
    ensures |r| <= |s|
  {
    if |s| > 0 && s[|s| - 1] == '0' then TrimTrailingZeros(s[..|s| - 1]) else s
  }

  const MB: nat := 1048576

  /**
   * `String(maxSize / 1024 / 1024)`: the exact decimal value of the quotient,
   * which has at most twenty digits after the point since 1024 · 1024 is a
   * power of two.
   */
  function MegabyteText(bytes: nat): string {
    var whole := NatToDecimal(bytes / MB);
    var frac := bytes % MB;
    if frac == 0 then whole else whole + "." + TrimTrailingZeros(PadLeft(NatToDecimal(frac * 95367431640625), 20))
  }

  /** A limit of a whole number of megabytes is printed as that number. */
  lemma WholeMegabytes(k: nat)
    ensures MegabyteText(k * MB) == NatToDecimal(k)
  {
    var bytes := k * MB;
    assert bytes / MB == k && bytes % MB == 0 by {
      var r := bytes % MB;
      assert bytes == MB * (bytes / MB) + r && 0 <= r < MB;
      assert MB * (k - bytes / MB) == r;
    }
  }

  /** `validateFileSize(maxSize)`: 400 iff a file is present and strictly larger than the limit. */
  function ValidateFileSize(maxSize: nat, file: Option<UploadedFile>): (g: Gate)
    ensures g.Halt? <==> file.Some? && file.value.size > maxSize
    ensures g.Halt? ==> g == Halt(400, "El fitxer és massa gran. Mida màxima: " + MegabyteText(maxSize) + "MB")
  {
    if file.Some? && file.value.size > maxSize then Halt(400, "El fitxer és massa gran. Mida màxima: " + MegabyteText(maxSize) + "MB")
    else Next
  }

  /** `validateFileType(allowedTypes)`: 400 iff a file is present and its type is not listed. */
  function ValidateFileType(allowedTypes: seq<string>, file: Option<UploadedFile>): (g: Gate)
    ensures g.Halt? <==> file.Some? && file.value.mimetype !in allowedTypes
    ensures g.Halt? ==> g == Halt(400, "Tipus de fitxer no permès. Tipus permesos: " + JoinWith(allowedTypes, ", "))
  {
    if file.Some? && file.value.mimetype !in allowedTypes then Halt(400, "Tipus de fitxer no permès. Tipus permesos: " + JoinWith(allowedTypes, ", "))
    else Next
  }

  /** No file, nothing to check: both upload validators pass a request without one. */
  lemma NoFilePasses(maxSize: nat, allowedTypes: seq<string>)
    ensures ValidateFileSize(maxSize, None) == Next && ValidateFileType(allowedTypes, None) == Next
  {
  }
}
