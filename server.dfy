/**
 * The request dispatcher of the HTTP server: the chat endpoint with its CORS
 * gate and preflight, the method check, and static files under the root.
 *
 * `Route` is the decision as a value; `Dispatch` takes the same steps on a
 * `ServerResponse` the way the request callback does, setting headers one
 * at a time before it picks a branch, and is proved to end in `Route`'s answer.
 */
module Server {
  import opened Wrappers
  import opened Strings
  import opened Json
  import opened Body
  import opened ServerConfig
  import opened Cors
  import opened Chat
  import opened Uri
  import opened Paths
  import opened StaticFiles

  /**
   * What the dispatcher reads of a request: method and URL ("" when missing),
   * the `Origin` header ("" when missing), and the body stream.
   */
  datatype Request = Request(httpMethod: string, url: string, origin: string, chunks: seq<string>, end: StreamEnd)

  /**
   * What `fs.stat` does for a path: report an error to its callback, throw
   * at once (Node does so for a path holding U+0000), or report whether the
   * path is a regular file.
   */
  datatype StatResult = StatFailed | StatThrew(error: JsError) | StatOk(isFile: bool)

  type Stat = string -> StatResult

  /** What follows the headers: nothing, a JSON payload, or the bytes of a file. */
  datatype ResponseBody = NoBody | JsonPayload(payload: Json) | FileContents(path: string)

  datatype Response = Response(status: int, headers: map<string, string>, body: ResponseBody)

  /**
   * How a request ends: answered (with whether its body was read and the
   * upstream call made for it), or left without a response because an
   * exception escaped the callback.
   */
  datatype Outcome =
    | Answered(response: Response, bodyRead: bool, upstream: Option<UpstreamCall>)
    | Unanswered(error: JsError)

  const ChatPrefix := "/api/chat"
  const JsonContentType := "application/json; charset=utf-8"

  /** The error `decodeURIComponent` throws on a malformed escape. */
  const UriMalformed := JsError("URIError", "URI malformed")

  /**
   * The error (code `ERR_INVALID_ARG_VALUE`) `fs.stat` throws, before looking
   * at the disk, for a path with a U+0000 in it. Node's message goes on with
   * ` Received '<path>'`; that tail is left off, since the error is never sent.
   */
  const NullBytePath := JsError("TypeError", "The argument 'path' must be a string, Uint8Array, or URL without null bytes.")

  /** Node's `fs.stat`, whatever the disk holds: a path with a U+0000 in it throws. */
  ghost predicate NodeStat(stat: Stat) {
    forall path :: '\0' in path ==> stat(path) == StatThrew(NullBytePath)
  }

  /** The headers every answer from the chat endpoint carries once its origin is accepted. */
  function CorsHeaders(allowOrigin: string): map<string, string>
  {
    map[
      "Access-Control-Allow-Origin" := allowOrigin,
      "Access-Control-Allow-Methods" := "POST,OPTIONS",
      "Access-Control-Allow-Headers" := "Content-Type",
      "Vary" := "Origin"]
  }

  /** `{error: kind}`. */
  function ErrorPayload(kind: string): Json
  {
    Obj(map["error" := Str(kind)])
  }

  /** `sendJson` after `headers` were set: the JSON content type is added. */
  function JsonResponse(headers: map<string, string>, status: int, payload: Json): (r: Response)
    ensures r.status == status && r.body == JsonPayload(payload)
    ensures r.headers.Keys == headers.Keys + {"Content-Type"} && r.headers["Content-Type"] == JsonContentType
    ensures forall k :: k in headers && k != "Content-Type" ==> r.headers[k] == headers[k]
  {
    Response(status, headers["Content-Type" := JsonContentType], JsonPayload(payload))
  }

  /** A JSON answer that reads no body and calls no upstream. */
  function Reject(headers: map<string, string>, status: int, kind: string): Outcome
  {
    Answered(JsonResponse(headers, status, ErrorPayload(kind)), false, None)
  }

  /** A GET or HEAD request for a static file. */
  function StaticRoute(rootSegs: seq<string>, req: Request, headers: map<string, string>, stat: Stat): Outcome
    requires ValidSegments(rootSegs)
  {
    match SafeResolveFile(rootSegs, req.url)
    case MalformedUri => Unanswered(UriMalformed)
    case OutsideRoot => Reject(headers, 403, "forbidden_path")
    case Resolved(path) =>
      match stat(path)
      case StatThrew(e) => Unanswered(e)
      case StatFailed => Reject(headers, 404, "not_found")
      case StatOk(isFile) =>
        if !isFile then Reject(headers, 404, "not_found")
        else
          Answered(Response(200, headers["Content-Type" := ContentType(path)],
            if req.httpMethod == "HEAD" then NoBody else FileContents(path)), false, None)
  }

  /** Whether a URL is for the chat endpoint: a plain prefix test, so `/api/chatter` is one too. */
  predicate IsChatUrl(url: string) {
    StartsWith(url, ChatPrefix)
  }

  /** The dispatcher's answer to a request. */
  function Route(config: Config, rootSegs: seq<string>, req: Request, parse: Parser, fetch: Fetcher, stat: Stat): Outcome
    requires ValidSegments(rootSegs)
  {
    if req.url == "" || req.httpMethod == "" then Reject(map[], 400, "invalid_request")
    else
      var chat := IsChatUrl(req.url);
      var allowOrigin := ResolveCorsOrigin(req.origin, config.allowedOrigins);
      if chat && allowOrigin == "" then Reject(map[], 403, "origin_not_allowed")
      else
        var headers := if chat then CorsHeaders(allowOrigin) else map[];
        if chat && req.httpMethod == "OPTIONS" then Answered(Response(204, headers, NoBody), false, None)
        else if req.httpMethod == "POST" && chat then
          var h := HandleApiChat(config, req.chunks, req.end, parse, fetch);
          Answered(JsonResponse(headers, h.reply.status, h.reply.body), true, h.sent)
        else if req.httpMethod != "GET" && req.httpMethod != "HEAD" then Reject(headers, 405, "method_not_allowed")
        else StaticRoute(rootSegs, req, headers, stat)
  }

  /** The `res` object of one request, written step by step. */
  class ServerResponse {
    var statusCode: int
    var headers: map<string, string>
    var body: ResponseBody
    var finished: bool

    /** A response nothing has been written to yet. */
    constructor ()
      ensures statusCode == 200 && headers == map[] && body == NoBody && !finished
    {
      statusCode := 200;
      headers := map[];
      body := NoBody;
      finished := false;
    }

    /** What the client receives. */
    function Sent(): Response
      reads this
    {
      Response(statusCode, headers, body)
    }

    /** `res.setHeader(name, value)`. */
    method SetHeader(name: string, value: string)
      requires !finished
      modifies this
      ensures headers == old(headers)[name := value]
      ensures statusCode == old(statusCode) && body == old(body) && finished == old(finished)
    {
      headers := headers[name := value];
    }

    /** `res.writeHead(status, extra)`: the extra headers win over ones set before. */
    method WriteHead(status: int, extra: map<string, string>)
      requires !finished
      modifies this
      ensures statusCode == status && headers == old(headers) + extra
      ensures body == old(body) && finished == old(finished)
    {
      statusCode := status;
      headers := headers + extra;
    }

    /** `res.end(...)`, or piping a file into the response. */
    method End(b: ResponseBody)
      requires !finished
      modifies this
      ensures body == b && finished
      ensures statusCode == old(statusCode) && headers == old(headers)
    {
      body := b;
      finished := true;
    }

    /** `sendJson(res, status, payload)`. */
    method SendJson(status: int, payload: Json)
      requires !finished
      modifies this
      ensures Sent() == JsonResponse(old(headers), status, payload) && finished
    {
      WriteHead(status, map["Content-Type" := JsonContentType]);
      End(JsonPayload(payload));
    }
  }

  /** The static-file part of the callback, after the headers in `res` were set. */
  method ServeStatic(rootSegs: seq<string>, req: Request, stat: Stat, res: ServerResponse)
    requires ValidSegments(rootSegs) && !res.finished
    modifies res
    ensures StaticRoute(rootSegs, req, old(res.headers), stat).Answered? <==> res.finished
    ensures res.finished ==> StaticRoute(rootSegs, req, old(res.headers), stat) == Answered(res.Sent(), false, None)
  {
    ghost var headers := res.headers;
    var resolution := SafeResolveFile(rootSegs, req.url);
    if resolution.MalformedUri? {
      // the `URIError` escapes the callback: nothing is sent
      return;
    }
    if resolution.OutsideRoot? {
      res.SendJson(403, ErrorPayload("forbidden_path"));
      return;
    }
    var path := resolution.path;
    var st := stat(path);
    if st.StatThrew? {
      // `fs.stat` threw and the exception escapes the callback: nothing is sent
      return;
    }
    if st.StatFailed? || !st.isFile {
      res.SendJson(404, ErrorPayload("not_found"));
      assert StaticRoute(rootSegs, req, headers, stat) == Reject(headers, 404, "not_found");
      return;
    }
    assert StaticRoute(rootSegs, req, headers, stat) ==
      Answered(Response(200, headers["Content-Type" := ContentType(path)],
        if req.httpMethod == "HEAD" then NoBody else FileContents(path)), false, None);
    SendFile(path, req.httpMethod == "HEAD", res);
  }

  /** The 200 answer for a regular file: its content type, then the contents unless the request is a HEAD. */
  method SendFile(path: string, head: bool, res: ServerResponse)
    requires !res.finished
    modifies res
    ensures res.finished
    ensures res.Sent() == Response(200, old(res.headers)["Content-Type" := ContentType(path)],
      if head then NoBody else FileContents(path))
  {
    res.WriteHead(200, map["Content-Type" := ContentType(path)]);
    assert res.headers == old(res.headers)["Content-Type" := ContentType(path)];
    if head {
      res.End(NoBody);
    } else {
      res.End(FileContents(path));
    }
  }

  /**
   * The request callback on a fresh response. It answers exactly when
   * `Route` does, with `Route`'s answer; when the URI cannot be decoded the
   * exception leaves `res` unfinished.
   */
  method Dispatch(config: Config, rootSegs: seq<string>, req: Request, parse: Parser, fetch: Fetcher, stat: Stat,
                  res: ServerResponse)
      returns (bodyRead: bool, upstream: Option<UpstreamCall>)
    requires ValidSegments(rootSegs)
    requires res.statusCode == 200 && res.headers == map[] && res.body == NoBody && !res.finished
    modifies res
    ensures Route(config, rootSegs, req, parse, fetch, stat).Answered? <==> res.finished
    ensures res.finished ==> Route(config, rootSegs, req, parse, fetch, stat) == Answered(res.Sent(), bodyRead, upstream)
  {
    ghost var route := Route(config, rootSegs, req, parse, fetch, stat);
    if req.url == "" || req.httpMethod == "" {
      res.SendJson(400, ErrorPayload("invalid_request"));
      return false, None;
    }
    var chat := IsChatUrl(req.url);
    ghost var allowOrigin := ResolveCorsOrigin(req.origin, config.allowedOrigins);
    if chat {
      var allowOrigin := ResolveCorsOrigin(req.origin, config.allowedOrigins);
      if allowOrigin == "" {
        res.SendJson(403, ErrorPayload("origin_not_allowed"));
        return false, None;
      }
      res.SetHeader("Access-Control-Allow-Origin", allowOrigin);
      res.SetHeader("Access-Control-Allow-Methods", "POST,OPTIONS");
      res.SetHeader("Access-Control-Allow-Headers", "Content-Type");
      res.SetHeader("Vary", "Origin");
      assert res.headers == CorsHeaders(allowOrigin);
      if req.httpMethod == "OPTIONS" {
        res.WriteHead(204, map[]);
        res.End(NoBody);
        assert res.headers == CorsHeaders(allowOrigin);
        return false, None;
      }
    }
    assert res.headers == if chat then CorsHeaders(allowOrigin) else map[];
    if req.httpMethod == "POST" && chat {
      var h := HandleApiChat(config, req.chunks, req.end, parse, fetch);
      res.SendJson(h.reply.status, h.reply.body);
      return true, h.sent;
    }
    if req.httpMethod != "GET" && req.httpMethod != "HEAD" {
      res.SendJson(405, ErrorPayload("method_not_allowed"));
      return false, None;
    }
    assert route == StaticRoute(rootSegs, req, res.headers, stat);
    ServeStatic(rootSegs, req, stat, res);
    return false, None;
  }

  /** A request without a method or URL is a 400, before anything else is looked at. */
  lemma InvalidRequestRejected(config: Config, rootSegs: seq<string>, req: Request, parse: Parser, fetch: Fetcher, stat: Stat)
    requires ValidSegments(rootSegs)
    requires req.url == "" || req.httpMethod == ""
    ensures Route(config, rootSegs, req, parse, fetch, stat) == Reject(map[], 400, "invalid_request")
  {
  }

  /**
   * On the chat endpoint the request is refused with 403, before its body is
   * read, exactly when the origin is present, the allow-list has no wildcard
   * and the origin is not listed.
   */
  lemma OriginGate(config: Config, rootSegs: seq<string>, req: Request, parse: Parser, fetch: Fetcher, stat: Stat)
    requires ValidSegments(rootSegs)
    requires req.url != "" && req.httpMethod != "" && IsChatUrl(req.url)
    ensures Route(config, rootSegs, req, parse, fetch, stat) == Reject(map[], 403, "origin_not_allowed") <==>
      req.origin != "" && "*" !in config.allowedOrigins && req.origin !in config.allowedOrigins
  {
    if ResolveCorsOrigin(req.origin, config.allowedOrigins) != "" {
      AcceptedOriginNotRefused(config, rootSegs, req, parse, fetch, stat);
    }
  }

  /** An accepted origin is never answered with the origin refusal. */
  lemma AcceptedOriginNotRefused(config: Config, rootSegs: seq<string>, req: Request, parse: Parser, fetch: Fetcher, stat: Stat)
    requires ValidSegments(rootSegs)
    requires req.url != "" && req.httpMethod != "" && IsChatUrl(req.url)
    requires ResolveCorsOrigin(req.origin, config.allowedOrigins) != ""
    ensures Route(config, rootSegs, req, parse, fetch, stat) != Reject(map[], 403, "origin_not_allowed")
  {
    ChatAnswersCarryCors(config, rootSegs, req, parse, fetch, stat);
    CorsMarksAnswer(Route(config, rootSegs, req, parse, fetch, stat), CorsHeaders(ResolveCorsOrigin(req.origin, config.allowedOrigins)));
  }

  /** An outcome whose answer carries the CORS headers is not the refusal, which carries none. */
  lemma CorsMarksAnswer(o: Outcome, cors: map<string, string>)
    requires "Access-Control-Allow-Origin" in cors
    requires o.Answered? ==> forall k :: k in cors ==> k in o.response.headers && o.response.headers[k] == cors[k]
    ensures o != Reject(map[], 403, "origin_not_allowed")
  {
    assert "Access-Control-Allow-Origin" !in Reject(map[], 403, "origin_not_allowed").response.headers;
  }

  /** Every answer from the chat endpoint to an accepted origin carries the CORS headers. */
  lemma ChatAnswersCarryCors(config: Config, rootSegs: seq<string>, req: Request, parse: Parser, fetch: Fetcher, stat: Stat)
    requires ValidSegments(rootSegs)
    requires req.url != "" && req.httpMethod != "" && IsChatUrl(req.url)
    requires ResolveCorsOrigin(req.origin, config.allowedOrigins) != ""
    ensures var o := Route(config, rootSegs, req, parse, fetch, stat);
      var cors := CorsHeaders(ResolveCorsOrigin(req.origin, config.allowedOrigins));
      o.Answered? ==> forall k :: k in cors ==> k in o.response.headers && o.response.headers[k] == cors[k]
  {
    var cors := CorsHeaders(ResolveCorsOrigin(req.origin, config.allowedOrigins));
    assert "Content-Type" !in cors;
    if req.httpMethod == "GET" || req.httpMethod == "HEAD" {
      RouteOfFileRequest(config, rootSegs, req, parse, fetch, stat);
      StaticKeepsHeaders(rootSegs, req, cors, stat);
    }
  }

  /** A preflight to the chat endpoint from an accepted origin is a 204 with the CORS headers and no body. */
  lemma PreflightAnswered(config: Config, rootSegs: seq<string>, req: Request, parse: Parser, fetch: Fetcher, stat: Stat)
    requires ValidSegments(rootSegs)
    requires req.httpMethod == "OPTIONS" && IsChatUrl(req.url)
    requires ResolveCorsOrigin(req.origin, config.allowedOrigins) != ""
    ensures Route(config, rootSegs, req, parse, fetch, stat) ==
      Answered(Response(204, CorsHeaders(ResolveCorsOrigin(req.origin, config.allowedOrigins)), NoBody), false, None)
  {
  }

  /** A POST to the chat endpoint from an accepted origin is answered by the chat handler, with the CORS headers. */
  lemma ChatPostHandled(config: Config, rootSegs: seq<string>, req: Request, parse: Parser, fetch: Fetcher, stat: Stat)
    requires ValidSegments(rootSegs)
    requires req.httpMethod == "POST" && IsChatUrl(req.url)
    requires ResolveCorsOrigin(req.origin, config.allowedOrigins) != ""
    ensures var h := HandleApiChat(config, req.chunks, req.end, parse, fetch);
      Route(config, rootSegs, req, parse, fetch, stat) ==
        Answered(JsonResponse(CorsHeaders(ResolveCorsOrigin(req.origin, config.allowedOrigins)), h.reply.status, h.reply.body), true, h.sent)
  {
  }

  /**
   * The body is read only for a POST to the chat endpoint from an accepted
   * origin, and the upstream is called only then and only with a key.
   */
  lemma BodyReadOnlyForChatPost(config: Config, rootSegs: seq<string>, req: Request, parse: Parser, fetch: Fetcher, stat: Stat)
    requires ValidSegments(rootSegs)
    ensures var o := Route(config, rootSegs, req, parse, fetch, stat);
      o.Answered? && o.bodyRead <==>
        req.url != "" && req.httpMethod == "POST" && IsChatUrl(req.url) &&
        ResolveCorsOrigin(req.origin, config.allowedOrigins) != ""
    ensures var o := Route(config, rootSegs, req, parse, fetch, stat);
      o.Answered? && o.upstream.Some? ==> o.bodyRead && config.apiKey != ""
  {
    if req.url != "" && req.httpMethod != "" && (req.httpMethod == "GET" || req.httpMethod == "HEAD") {
      var chat := IsChatUrl(req.url);
      var allowOrigin := ResolveCorsOrigin(req.origin, config.allowedOrigins);
      if !(chat && allowOrigin == "") {
        StaticRouteReadsNothing(rootSegs, req, if chat then CorsHeaders(allowOrigin) else map[], stat);
      }
    }
  }

  /** A static answer neither reads the request body nor calls the upstream. */
  lemma StaticRouteReadsNothing(rootSegs: seq<string>, req: Request, headers: map<string, string>, stat: Stat)
    requires ValidSegments(rootSegs)
    ensures var o := StaticRoute(rootSegs, req, headers, stat);
      o.Answered? ==> !o.bodyRead && o.upstream.None?
  {
    match SafeResolveFile(rootSegs, req.url)
    case MalformedUri =>
    case OutsideRoot =>
    case Resolved(path) =>
      match stat(path)
      case StatThrew(_) =>
      case StatFailed =>
      case StatOk(isFile) =>
  }

  /** Any method other than GET and HEAD that the chat endpoint does not take is a 405; so is OPTIONS elsewhere. */
  lemma OtherMethodsNotAllowed(config: Config, rootSegs: seq<string>, req: Request, parse: Parser, fetch: Fetcher, stat: Stat)
    requires ValidSegments(rootSegs)
    requires req.url != "" && req.httpMethod != "" && req.httpMethod != "GET" && req.httpMethod != "HEAD"
    requires IsChatUrl(req.url) ==> req.httpMethod != "OPTIONS" && req.httpMethod != "POST"
    requires IsChatUrl(req.url) ==> ResolveCorsOrigin(req.origin, config.allowedOrigins) != ""
    ensures Route(config, rootSegs, req, parse, fetch, stat).Answered?
    ensures Route(config, rootSegs, req, parse, fetch, stat).response.status == 405
    ensures !Route(config, rootSegs, req, parse, fetch, stat).bodyRead
  {
  }

  /** A GET or HEAD that `safeResolveFile` places outside the root is a 403. */
  lemma OutsidePathForbidden(config: Config, rootSegs: seq<string>, req: Request, parse: Parser, fetch: Fetcher, stat: Stat)
    requires ValidSegments(rootSegs)
    requires req.httpMethod == "GET" || req.httpMethod == "HEAD"
    requires req.url != "" && !IsChatUrl(req.url)
    requires SafeResolveFile(rootSegs, req.url) == OutsideRoot
    ensures Route(config, rootSegs, req, parse, fetch, stat) == Reject(map[], 403, "forbidden_path")
  {
  }

  /** A GET or HEAD whose path cannot be percent-decoded gets no response at all. */
  lemma MalformedUriUnanswered(config: Config, rootSegs: seq<string>, req: Request, parse: Parser, fetch: Fetcher, stat: Stat)
    requires ValidSegments(rootSegs)
    requires req.httpMethod == "GET" || req.httpMethod == "HEAD"
    requires req.url != "" && !IsChatUrl(req.url)
    requires DecodeUriComponent(PathPart(req.url)).None?
    ensures Route(config, rootSegs, req, parse, fetch, stat) == Unanswered(UriMalformed)
  {
  }

  /** A regular file under the root is served with status 200 and the content type of its extension; HEAD sends no body. */
  lemma FileServed(config: Config, rootSegs: seq<string>, req: Request, parse: Parser, fetch: Fetcher, stat: Stat, path: string)
    requires ValidSegments(rootSegs)
    requires req.httpMethod == "GET" || req.httpMethod == "HEAD"
    requires req.url != "" && !IsChatUrl(req.url)
    requires SafeResolveFile(rootSegs, req.url) == Resolved(path) && stat(path) == StatOk(true)
    ensures Route(config, rootSegs, req, parse, fetch, stat) ==
      Answered(Response(200, map["Content-Type" := ContentType(path)],
        if req.httpMethod == "HEAD" then NoBody else FileContents(path)), false, None)
  {
  }

  /** A path that resolves to nothing, or to something other than a regular file, is a 404. */
  lemma MissingFileNotFound(config: Config, rootSegs: seq<string>, req: Request, parse: Parser, fetch: Fetcher, stat: Stat, path: string)
    requires ValidSegments(rootSegs)
    requires req.httpMethod == "GET" || req.httpMethod == "HEAD"
    requires req.url != "" && !IsChatUrl(req.url)
    requires SafeResolveFile(rootSegs, req.url) == Resolved(path) && (stat(path) == StatFailed || stat(path) == StatOk(false))
    ensures Route(config, rootSegs, req, parse, fetch, stat) == Reject(map[], 404, "not_found")
  {
  }

  /** A GET or HEAD whose resolved path holds a U+0000 (`/%00`) gets no response: `fs.stat` throws before any callback. */
  lemma NullBytePathUnanswered(config: Config, rootSegs: seq<string>, req: Request, parse: Parser, fetch: Fetcher, stat: Stat, path: string)
    requires ValidSegments(rootSegs)
    requires req.httpMethod == "GET" || req.httpMethod == "HEAD"
    requires req.url != "" && !IsChatUrl(req.url)
    requires NodeStat(stat)
    requires SafeResolveFile(rootSegs, req.url) == Resolved(path) && '\0' in path
    ensures Route(config, rootSegs, req, parse, fetch, stat) == Unanswered(NullBytePath)
  {
  }

  /** HEAD gets the same status and headers as GET, and never a body. */
  lemma HeadMatchesGet(config: Config, rootSegs: seq<string>, req: Request, parse: Parser, fetch: Fetcher, stat: Stat)
    requires ValidSegments(rootSegs)
    requires req.httpMethod == "GET"
    ensures var get := Route(config, rootSegs, req, parse, fetch, stat);
      var head := Route(config, rootSegs, req.(httpMethod := "HEAD"), parse, fetch, stat);
      get.Answered? == head.Answered? &&
      (get.Answered? ==>
        head.response.status == get.response.status && head.response.headers == get.response.headers &&
        (head.response.body == NoBody || head.response.body == get.response.body))
  {
    var headReq := req.(httpMethod := "HEAD");
    if req.url != "" {
      RouteOfFileRequest(config, rootSegs, req, parse, fetch, stat);
      RouteOfFileRequest(config, rootSegs, headReq, parse, fetch, stat);
      var chat := IsChatUrl(req.url);
      var allowOrigin := ResolveCorsOrigin(req.origin, config.allowedOrigins);
      if !(chat && allowOrigin == "") {
        StaticHeadMatchesGet(rootSegs, req, if chat then CorsHeaders(allowOrigin) else map[], stat);
      }
    }
  }

  /** For GET and HEAD, past the origin gate, the dispatcher's answer is the static-file answer. */
  lemma RouteOfFileRequest(config: Config, rootSegs: seq<string>, req: Request, parse: Parser, fetch: Fetcher, stat: Stat)
    requires ValidSegments(rootSegs)
    requires req.url != "" && (req.httpMethod == "GET" || req.httpMethod == "HEAD")
    ensures var chat := IsChatUrl(req.url);
      var allowOrigin := ResolveCorsOrigin(req.origin, config.allowedOrigins);
      Route(config, rootSegs, req, parse, fetch, stat) ==
        if chat && allowOrigin == "" then Reject(map[], 403, "origin_not_allowed")
        else StaticRoute(rootSegs, req, if chat then CorsHeaders(allowOrigin) else map[], stat)
  {
  }

  /** A HEAD for a file gets the GET's status and headers, without the contents. */
  lemma StaticHeadMatchesGet(rootSegs: seq<string>, req: Request, headers: map<string, string>, stat: Stat)
    requires ValidSegments(rootSegs)
    requires req.httpMethod == "GET"
    ensures var get := StaticRoute(rootSegs, req, headers, stat);
      var head := StaticRoute(rootSegs, req.(httpMethod := "HEAD"), headers, stat);
      get.Answered? == head.Answered? &&
      (get.Answered? ==>
        head.response.status == get.response.status && head.response.headers == get.response.headers &&
        (head.response.body == NoBody || head.response.body == get.response.body))
  {
  }

  /** Every static-file answer keeps the headers set before it, except the content type it sets itself. */
  lemma StaticKeepsHeaders(rootSegs: seq<string>, req: Request, headers: map<string, string>, stat: Stat)
    requires ValidSegments(rootSegs)
    ensures var o := StaticRoute(rootSegs, req, headers, stat);
      o.Answered? ==> forall k :: k in headers && k != "Content-Type" ==> k in o.response.headers && o.response.headers[k] == headers[k]
  {
  }

  /** `/../name` beside the root is refused with 403 unless `name` extends the root's own name. */
  lemma ParentTraversalForbidden(config: Config, rootSegs: seq<string>, req: Request, parse: Parser, fetch: Fetcher, stat: Stat, name: string)
    requires ValidSegments(rootSegs) && rootSegs != []
    requires IsSegment(name) && '%' !in name && '?' !in name
    requires !StartsWith(name, rootSegs[|rootSegs| - 1])
    requires req.httpMethod == "GET" && req.url == "/../" + name
    ensures Route(config, rootSegs, req, parse, fetch, stat) == Reject(map[], 403, "forbidden_path")
  {
    ParentTraversal(rootSegs, name);
    assert !IsChatUrl(req.url) by {
      assert req.url[1] == '.' && ChatPrefix[1] == 'a';
    }
  }

  /** `/` serves the root's `index.html` as HTML when it is a regular file. */
  lemma IndexServedAsHtml(config: Config, rootSegs: seq<string>, req: Request, parse: Parser, fetch: Fetcher, stat: Stat)
    requires ValidSegments(rootSegs)
    requires req.httpMethod == "GET" && req.url != "" && PathPart(req.url) == "/"
    requires stat(Render(rootSegs + ["index.html"])) == StatOk(true)
    ensures Route(config, rootSegs, req, parse, fetch, stat) ==
      Answered(Response(200, map["Content-Type" := "text/html; charset=utf-8"],
        FileContents(Render(rootSegs + ["index.html"]))), false, None)
  {
    RootServesIndex(rootSegs, req.url);
    IndexIsHtml(rootSegs);
    ChatUrlPathPart(req.url);
    FileServed(config, rootSegs, req, parse, fetch, stat, Render(rootSegs + ["index.html"]));
  }

  /** The path part of a chat URL still starts with the chat prefix, so it is never `/`. */
  lemma ChatUrlPathPart(url: string)
    ensures IsChatUrl(url) ==> PathPart(url) != "/"
  {
    if IsChatUrl(url) {
      var pieces := Split(url, '?');
      assert '?' !in url[..|ChatPrefix|];
      match IndexOf(url, '?')
      case None =>
        assert PathPart(url) == url;
      case Some(i) =>
        assert i >= |ChatPrefix|;
        assert PathPart(url) == url[..i];
        assert |url[..i]| > 1;
    }
  }

  /** A POST with the body `{}` from an accepted origin is a 400 and nothing is sent upstream. */
  lemma EmptyChatBodyRejected(config: Config, rootSegs: seq<string>, req: Request, parse: Parser, fetch: Fetcher, stat: Stat)
    requires ValidSegments(rootSegs)
    requires req.httpMethod == "POST" && IsChatUrl(req.url) && req.end == Ended
    requires ResolveCorsOrigin(req.origin, config.allowedOrigins) != ""
    requires Utf16Length(Concat(req.chunks)) <= BodyLimit
    requires Concat(req.chunks) != "" ==> parse(Concat(req.chunks)) == Parsed(Obj(map[]))
    ensures var o := Route(config, rootSegs, req, parse, fetch, stat);
      o.Answered? && o.response.status == 400 && o.upstream.None? &&
      o.response.body == JsonPayload(Obj(map["error" := Str("message is required")]))
  {
    EmptyObjectBodyRejected(config, req.chunks, parse, fetch);
    ChatPostHandled(config, rootSegs, req, parse, fetch, stat);
  }
}
