/**
 * The parts of an Express request and response that the core reads or
 * changes in place: `req.user`, `req.query`, and the response's `send`,
 * which the audit interceptors replace.
 */
module Http {
  import opened Wrappers
  import opened Js
  import opened Domain

  /** `req.file` from the upload middleware. */
  datatype UploadedFile = UploadedFile(size: nat, mimetype: string)

  /** A middleware either calls `next()` or answers the request itself with a status and a message. */
  datatype Gate = Next | Halt(status: nat, message: string)

  /** `req.query[key]` as a handler's `if (key)` sees it: present and non-empty. */
  function GivenParam(query: map<string, string>, key: string): (r: Option<string>)
    ensures r.Some? <==> key in query && query[key] != ""
    ensures r.Some? ==> r.value == query[key]
  {
    if key in query && query[key] != "" then Some(query[key]) else None
  }

  class Request {
    var httpMethod: string
    /** `req.url` (path and query string) and `req.path` (the path alone). */
    var url: string
    var path: string
    var authorization: Option<string>
    var userAgent: Option<string>
    var ip: Option<string>
    var params: map<string, string>
    var query: map<string, string>
    var body: map<string, Json>
    var user: Option<Identity>
    var file: Option<UploadedFile>

    constructor (httpMethod: string, url: string, path: string, authorization: Option<string>, userAgent: Option<string>,
                 ip: Option<string>, params: map<string, string>, query: map<string, string>, body: map<string, Json>,
                 file: Option<UploadedFile>)
      ensures this.httpMethod == httpMethod && this.url == url && this.path == path
      ensures this.authorization == authorization && this.userAgent == userAgent && this.ip == ip
      ensures this.params == params && this.query == query && this.body == body && this.file == file
      ensures user == None
    {
      this.httpMethod := httpMethod;
      this.url := url;
      this.path := path;
      this.authorization := authorization;
      this.userAgent := userAgent;
      this.ip := ip;
      this.params := params;
      this.query := query;
      this.body := body;
      this.file := file;
      user := None;
    }
  }

  /** What `res.send` currently is: the original, or one of the two audit wrappers around it. */
  datatype SendHook = Original | MiddlewareAudit(req: Request) | UtilsAudit(req: Request)

  class Response {
    var statusCode: nat
    /** The bodies the original `send` has put on the wire, in order. */
    var sent: seq<Json>
    var hook: SendHook

    constructor ()
      ensures statusCode == 200 && sent == [] && hook == Original
    {
      statusCode := 200;
      sent := [];
      hook := Original;
    }
  }
}
