/**
 * The chat proxy: `requestSimsimiReply` sends one utterance to the
 * upstream conversational API and interprets its loosely shaped answer,
 * and `handleApiChat` turns a `POST /api/chat` body into that call and the
 * call's result into the JSON response.
 *
 * `JSON.parse` and `fetch` are parameters: a `Parser` says what parsing a
 * text gives, a `Fetcher` what the upstream answers to a call (a call that
 * exceeds the configured timeout is aborted and fails with `AbortError`).
 */
module Chat {
  import opened Wrappers
  import opened Strings
  import opened Json
  import opened Body
  import opened ServerConfig

  /** What `JSON.parse(text)` does: a value, or a thrown `SyntaxError`. */
  datatype ParseResult = Parsed(value: Json) | SyntaxError(error: JsError)

  type Parser = string -> ParseResult

  /** The one upstream request: `POST endpoint` with the key in `x-api-key` and `JSON.stringify(payload)` as body. */
  datatype UpstreamCall = UpstreamCall(endpoint: string, apiKey: string, payload: Json)

  /** The upstream's answer: its status and body text, or the error `fetch` (or reading the text) threw. */
  datatype FetchOutcome = Responded(status: int, text: string) | FetchFailed(error: JsError)

  type Fetcher = UpstreamCall -> FetchOutcome

  /** The arguments of `requestSimsimiReply`, as `handleApiChat` prepares them. */
  datatype ChatRequest = ChatRequest(message: string, lang: string, talkKey: string)

  /** The object `requestSimsimiReply` resolves with: `ok: true` with a reply, or `ok: false` with a status. */
  datatype ChatResult =
    | ChatOk(reply: string, talkKey: Json)
    | ChatFailed(statusCode: int, error: Json, details: Json)

  /** A result together with the upstream request made for it, if any. */
  datatype ChatExchange = ChatExchange(result: ChatResult, sent: Option<UpstreamCall>)

  /** A JSON response: its status and the payload `sendJson` serialises. */
  datatype ApiReply = ApiReply(status: int, body: Json)

  /** `upstreamRes.ok`. */
  predicate IsSuccess(status: int) {
    200 <= status < 300
  }

  /** `${base}/${version}/talk`. */
  function Endpoint(config: Config): string
  {
    config.baseUrl + "/" + config.apiVersion + "/talk"
  }

  /** `{utext: message, lang: lang || "ko"}`, with `talkKey` only when one is given. */
  function OutboundPayload(req: ChatRequest): (p: Json)
    ensures p.Obj? && p.fields.Keys == {"utext", "lang"} + (if req.talkKey != "" then {"talkKey"} else {})
    ensures p.fields["utext"] == Str(req.message)
    ensures p.fields["lang"] == Str(if req.lang != "" then req.lang else "ko")
    ensures req.talkKey != "" ==> p.fields["talkKey"] == Str(req.talkKey)
  {
    var base := map["utext" := Str(req.message), "lang" := Str(if req.lang != "" then req.lang else "ko")];
    Obj(if req.talkKey != "" then base["talkKey" := Str(req.talkKey)] else base)
  }

  /** The upstream body as a value: `{}` for no text, `{raw: text}` for text that is not JSON. */
  function ParseUpstreamBody(text: string, parse: Parser): (parsed: Json)
    ensures text == "" ==> parsed == Obj(map[])
    ensures text != "" && parse(text).Parsed? ==> parsed == parse(text).value
    ensures text != "" && parse(text).SyntaxError? ==> parsed == Obj(map["raw" := Str(text)])
  {
    if text == "" then Obj(map[])
    else match parse(text)
      case Parsed(v) => v
      case SyntaxError(_) => Obj(map["raw" := Str(text)])
  }

  /** Where the reply may be, in order: `atext`, `response`, `reply`, `data.atext`. */
  function ReplyCandidates(parsed: Json): seq<Json>
  {
    [Get(parsed, "atext"), Get(parsed, "response"), Get(parsed, "reply"), Get(Get(parsed, "data"), "atext")]
  }

  /** The `||` chain over the reply candidates, ending in `""`. */
  function ReplyField(parsed: Json): (r: Json)
    ensures r == Str("") || r in ReplyCandidates(parsed)
    ensures Truthy(r) <==> exists i :: 0 <= i < 4 && Truthy(ReplyCandidates(parsed)[i])
  {
    var c := ReplyCandidates(parsed);
    var r := Or(c[0], Or(c[1], Or(c[2], Or(c[3], Str("")))));
    assert Truthy(r) ==> Truthy(c[0]) || Truthy(c[1]) || Truthy(c[2]) || Truthy(c[3]);
    r
  }

  /** The `||` chain is the first truthy candidate. */
  lemma ReplyFieldIsFirstTruthy(parsed: Json)
    ensures ReplyField(parsed) == FirstTruthy(ReplyCandidates(parsed), Str(""))
  {
    var c := ReplyCandidates(parsed);
    var f := Str("");
    FirstTruthyCons(c, f);
    FirstTruthyCons(c[1..], f);
    FirstTruthyCons(c[2..], f);
    FirstTruthyCons(c[3..], f);
    assert c[1..][1..] == c[2..] && c[2..][1..] == c[3..] && c[3..][1..] == [];
  }

  /** The continuation token: `talkKey || id || null`. */
  function TalkKeyField(parsed: Json): (r: Json)
    ensures Truthy(Get(parsed, "talkKey")) ==> r == Get(parsed, "talkKey")
    ensures !Truthy(Get(parsed, "talkKey")) && Truthy(Get(parsed, "id")) ==> r == Get(parsed, "id")
    ensures !Truthy(Get(parsed, "talkKey")) && !Truthy(Get(parsed, "id")) ==> r == Null
  {
    Or(Get(parsed, "talkKey"), Or(Get(parsed, "id"), Null))
  }

  /** The `catch` of `requestSimsimiReply`: status 502, a timeout told apart by the error's name. */
  function TransportFailure(err: JsError): (r: ChatResult)
    ensures r.ChatFailed? && r.statusCode == 502
    ensures r.error == Str("upstream_timeout") <==> err.name == "AbortError"
    ensures err.name != "AbortError" ==> r.error == Str("upstream_fetch_failed")
    ensures r.details == Str(ErrorDetails(err))
  {
    ChatFailed(502, Str(if err.name == "AbortError" then "upstream_timeout" else "upstream_fetch_failed"), Str(ErrorDetails(err)))
  }

  /** What `requestSimsimiReply` makes of the upstream's status and body text. */
  function InterpretResponse(status: int, text: string, parse: Parser): (r: ChatResult)
    ensures r.ChatOk? ==> r.reply != "" && Trim(r.reply) == r.reply
    ensures r.ChatFailed? ==> !IsSuccess(r.statusCode)
  {
    var parsed := ParseUpstreamBody(text, parse);
    if !IsSuccess(status) then
      ChatFailed(status, Or(Get(parsed, "message"), Or(Get(parsed, "msg"), Str("simsimi_upstream_error"))), parsed)
    else
      var reply := ReplyField(parsed);
      if !Truthy(reply) then ChatFailed(502, Str("empty_reply"), parsed)
      else match ToJsString(reply)
        case None => TransportFailure(ConversionError)
        case Some(s) =>
          if Trim(s) == "" then ChatFailed(502, Str("empty_reply"), parsed)
          else
            TrimIdempotent(s);
            ChatOk(Trim(s), TalkKeyField(parsed))
  }

  /**
   * `requestSimsimiReply`: without an API key nothing is sent and the
   * result is a 500; otherwise exactly one upstream call is made.
   */
  function RequestSimsimiReply(config: Config, req: ChatRequest, parse: Parser, fetch: Fetcher): (x: ChatExchange)
    ensures config.apiKey == "" <==> x.sent.None?
    ensures config.apiKey == "" ==> x.result == ChatFailed(500, Str("SIMSIMI_API_KEY is missing"), Undefined)
    ensures x.sent.Some? ==> x.sent.value == UpstreamCall(Endpoint(config), config.apiKey, OutboundPayload(req))
    ensures x.result.ChatOk? ==> x.result.reply != "" && Trim(x.result.reply) == x.result.reply
    ensures x.result.ChatFailed? ==> !IsSuccess(x.result.statusCode)
  {
    if config.apiKey == "" then ChatExchange(ChatFailed(500, Str("SIMSIMI_API_KEY is missing"), Undefined), None)
    else
      var call := UpstreamCall(Endpoint(config), config.apiKey, OutboundPayload(req));
      match fetch(call)
      case FetchFailed(e) => ChatExchange(TransportFailure(e), Some(call))
      case Responded(status, text) => ChatExchange(InterpretResponse(status, text, parse), Some(call))
  }

  /** The reply is the first truthy candidate, which must not be blank; the status must be a success. */
  lemma InterpretOkIff(status: int, text: string, parse: Parser)
    ensures var parsed := ParseUpstreamBody(text, parse);
      var first := FirstTruthy(ReplyCandidates(parsed), Str(""));
      InterpretResponse(status, text, parse).ChatOk? <==>
        IsSuccess(status) && ToJsString(first).Some? && Trim(ToJsString(first).value) != ""
    ensures var parsed := ParseUpstreamBody(text, parse);
      var first := FirstTruthy(ReplyCandidates(parsed), Str(""));
      InterpretResponse(status, text, parse).ChatOk? ==>
        InterpretResponse(status, text, parse) == ChatOk(Trim(ToJsString(first).value), TalkKeyField(parsed))
    // a success status without a usable reply: `String()` of the candidate threw, or it is falsy or blank
    ensures var parsed := ParseUpstreamBody(text, parse);
      var first := FirstTruthy(ReplyCandidates(parsed), Str(""));
      IsSuccess(status) && !InterpretResponse(status, text, parse).ChatOk? ==>
        InterpretResponse(status, text, parse) ==
          if ToJsString(first).None? then TransportFailure(ConversionError) else ChatFailed(502, Str("empty_reply"), parsed)
  {
    var parsed := ParseUpstreamBody(text, parse);
    ReplyFieldIsFirstTruthy(parsed);
  }

  /** A non-success upstream status is passed on, with the upstream's own message when it has one. */
  lemma UpstreamErrorPassedOn(status: int, text: string, parse: Parser)
    requires !IsSuccess(status)
    ensures var parsed := ParseUpstreamBody(text, parse);
      InterpretResponse(status, text, parse) ==
        ChatFailed(status, FirstTruthy([Get(parsed, "message"), Get(parsed, "msg")], Str("simsimi_upstream_error")), parsed)
  {
    var parsed := ParseUpstreamBody(text, parse);
    assert [Get(parsed, "message"), Get(parsed, "msg")][1..][1..] == [];
  }

  /** A first truthy candidate that is blank gives `empty_reply`, even when a later candidate has text. */
  lemma BlankFirstCandidateIsEmptyReply(status: int, text: string, parse: Parser, blank: string)
    requires IsSuccess(status)
    requires blank != "" && AllWhitespace(blank)
    requires text != "" && parse(text).Parsed?
    requires Get(parse(text).value, "atext") == Str(blank)
    ensures InterpretResponse(status, text, parse) == ChatFailed(502, Str("empty_reply"), parse(text).value)
  {
  }

  /** An aborted call (the timeout fired) is an `upstream_timeout` with status 502. */
  lemma TimeoutIsUpstreamTimeout(config: Config, req: ChatRequest, parse: Parser, fetch: Fetcher, message: string)
    requires config.apiKey != ""
    requires fetch(UpstreamCall(Endpoint(config), config.apiKey, OutboundPayload(req))) == FetchFailed(JsError("AbortError", message))
    ensures RequestSimsimiReply(config, req, parse, fetch).result.ChatFailed?
    ensures RequestSimsimiReply(config, req, parse, fetch).result.statusCode == 502
    ensures RequestSimsimiReply(config, req, parse, fetch).result.error == Str("upstream_timeout")
  {
  }

  /**
   * With a key, the result is what the upstream's outcome makes of it: a
   * thrown error is a transport failure, and an answer is interpreted.
   */
  lemma RequestSimsimiReplyOutcome(config: Config, req: ChatRequest, parse: Parser, fetch: Fetcher)
    requires config.apiKey != ""
    ensures var outcome := fetch(UpstreamCall(Endpoint(config), config.apiKey, OutboundPayload(req)));
      var x := RequestSimsimiReply(config, req, parse, fetch);
      (outcome.FetchFailed? ==> x.result == TransportFailure(outcome.error)) &&
      (outcome.Responded? ==> x.result == InterpretResponse(outcome.status, outcome.text, parse))
  {
  }

  /** Any other thrown error is a 502 `upstream_fetch_failed` carrying the error's message. */
  lemma FetchErrorIsFetchFailed(config: Config, req: ChatRequest, parse: Parser, fetch: Fetcher, e: JsError)
    requires config.apiKey != ""
    requires fetch(UpstreamCall(Endpoint(config), config.apiKey, OutboundPayload(req))) == FetchFailed(e)
    requires e.name != "AbortError"
    ensures RequestSimsimiReply(config, req, parse, fetch).result ==
      ChatFailed(502, Str("upstream_fetch_failed"), Str(ErrorDetails(e)))
  {
    RequestSimsimiReplyOutcome(config, req, parse, fetch);
  }

  /** An upstream answer `{"atext": a, "talkKey": k}` with a trimmed, non-empty `a` is the reply `a` with token `k`. */
  lemma ReplyWithTalkKey(status: int, text: string, parse: Parser, a: string, k: string)
    requires IsSuccess(status) && text != ""
    requires parse(text) == Parsed(Obj(map["atext" := Str(a), "talkKey" := Str(k)]))
    requires a != "" && Trim(a) == a && k != ""
    ensures InterpretResponse(status, text, parse) == ChatOk(a, Str(k))
  {
    var o := Obj(map["atext" := Str(a), "talkKey" := Str(k)]);
    assert ParseUpstreamBody(text, parse) == o;
    assert Get(o, "atext") == Str(a) && Get(o, "talkKey") == Str(k);
    assert ReplyField(o) == Str(a);
    assert TalkKeyField(o) == Str(k);
  }

  /** The arguments `handleApiChat` extracts from the parsed body; None where a `String()` conversion throws. */
  function ChatRequestOf(body: Json): (r: Option<ChatRequest>)
    ensures r.Some? ==> Trim(r.value.message) == r.value.message && Trim(r.value.lang) == r.value.lang
    ensures r.Some? ==> Trim(r.value.talkKey) == r.value.talkKey
    ensures r.Some? && !Truthy(Get(body, "talkKey")) ==> r.value.talkKey == ""
  {
    AssembleRequest(MessageText(body), LangText(body), TalkKeyText(body))
  }

  /** `String(body?.message || "")`, before trimming. */
  function MessageText(body: Json): Option<string>
  {
    ToJsString(Or(Get(body, "message"), Str("")))
  }

  /** `String(body?.lang || "ko")`, before trimming. */
  function LangText(body: Json): Option<string>
  {
    ToJsString(Or(Get(body, "lang"), Str("ko")))
  }

  /** `body?.talkKey ? String(body.talkKey) : ""`, before trimming. */
  function TalkKeyText(body: Json): Option<string>
  {
    if Truthy(Get(body, "talkKey")) then ToJsString(Get(body, "talkKey")) else Some("")
  }

  /** The request from the three converted texts, trimmed; None when a conversion threw. */
  function AssembleRequest(m: Option<string>, l: Option<string>, t: Option<string>): (r: Option<ChatRequest>)
    ensures r.Some? <==> m.Some? && l.Some? && t.Some?
    ensures r.Some? ==> Trim(r.value.message) == r.value.message && Trim(r.value.lang) == r.value.lang
    ensures r.Some? ==> Trim(r.value.talkKey) == r.value.talkKey
    ensures t == Some("") ==> r.Some? ==> r.value.talkKey == ""
  {
    if m.Some? && l.Some? && t.Some? then
      TrimIdempotent(m.value);
      TrimIdempotent(l.value);
      TrimIdempotent(t.value);
      TrimOfTrimmed("");
      Some(ChatRequest(Trim(m.value), Trim(l.value), Trim(t.value)))
    else None
  }

  /** `String(body?.message || "").trim()`: a string message is trimmed. */
  lemma ChatRequestMessage(body: Json)
    ensures var r := ChatRequestOf(body);
      r.Some? && Get(body, "message").Str? ==> r.value.message == Trim(Get(body, "message").s)
  {
    var m := Get(body, "message");
    if m.Str? {
      assert MessageText(body) == Some(m.s);
    }
  }

  /** `String(body?.message || "").trim()`: a falsy message is empty. */
  lemma ChatRequestMessageDefault(body: Json)
    ensures var r := ChatRequestOf(body);
      r.Some? && !Truthy(Get(body, "message")) ==> r.value.message == ""
  {
    if !Truthy(Get(body, "message")) {
      assert MessageText(body) == Some("");
      TrimOfTrimmed("");
    }
  }

  /** `String(body?.lang || "ko").trim()`: a non-empty string is trimmed. */
  lemma ChatRequestLang(body: Json)
    ensures var r := ChatRequestOf(body);
      r.Some? && Truthy(Get(body, "lang")) && Get(body, "lang").Str? ==> r.value.lang == Trim(Get(body, "lang").s)
  {
    var l := Get(body, "lang");
    if Truthy(l) && l.Str? {
      assert LangText(body) == Some(l.s);
    }
  }

  /** `String(body?.lang || "ko").trim()`: a falsy language is `ko`. */
  lemma ChatRequestLangDefault(body: Json)
    ensures var r := ChatRequestOf(body);
      r.Some? && !Truthy(Get(body, "lang")) ==> r.value.lang == "ko"
  {
    if !Truthy(Get(body, "lang")) {
      assert LangText(body) == Some("ko");
      DefaultLangTrimmed();
    }
  }

  /** The default language has no whitespace to trim. */
  lemma DefaultLangTrimmed()
    ensures Trim("ko") == "ko"
  {
    TrimOfTrimmed("ko");
  }

  /** `body?.talkKey ? String(body.talkKey).trim() : ""`: a non-empty string is trimmed. */
  lemma ChatRequestTalkKey(body: Json)
    ensures var r := ChatRequestOf(body);
      r.Some? && Truthy(Get(body, "talkKey")) && Get(body, "talkKey").Str? ==> r.value.talkKey == Trim(Get(body, "talkKey").s)
  {
    var k := Get(body, "talkKey");
    if Truthy(k) && k.Str? {
      assert TalkKeyText(body) == Some(k.s);
    }
  }

  /** The conversions can only fail on a value that is neither a string nor falsy. */
  lemma ChatRequestConverts(body: Json)
    requires StringOrFalsy(Get(body, "message")) && StringOrFalsy(Get(body, "lang")) && StringOrFalsy(Get(body, "talkKey"))
    ensures ChatRequestOf(body).Some?
  {
    assert MessageText(body).Some? && LangText(body).Some? && TalkKeyText(body).Some?;
  }

  /** A value `String()` converts without the conversion being needed or able to throw: a string, or falsy. */
  predicate StringOrFalsy(v: Json) {
    v.Str? || !Truthy(v)
  }

  /** The catch-all of `handleApiChat`: status 500 with the error's message. */
  function ServerError(err: JsError): ApiReply
  {
    ApiReply(500, Obj(map["error" := Str("server_error"), "details" := Str(ErrorDetails(err))]))
  }

  /** How a chat result is sent: the status (502 if none), `error || "chat_failed"`, `details || null`. */
  function ReplyFor(result: ChatResult): (a: ApiReply)
    ensures result.ChatOk? ==> a.status == 200
    ensures result.ChatFailed? && result.statusCode != 0 ==> a.status == result.statusCode
  {
    match result
    case ChatOk(reply, talkKey) => ApiReply(200, Obj(map["reply" := Str(reply), "talkKey" := talkKey]))
    case ChatFailed(code, error, details) =>
      ApiReply(if code != 0 then code else 502,
        Obj(map["error" := Or(error, Str("chat_failed")), "details" := Or(details, Null)]))
  }

  /**
   * What is sent for a result: `{reply, talkKey}` with 200 for a success;
   * for a failure `statusCode || 502`, `error || "chat_failed"` and `details || null`.
   */
  lemma ReplyForPayload(result: ChatResult)
    ensures result.ChatOk? ==>
      ReplyFor(result) == ApiReply(200, Obj(map["reply" := Str(result.reply), "talkKey" := result.talkKey]))
    ensures result.ChatFailed? ==>
      ReplyFor(result).status == (if result.statusCode != 0 then result.statusCode else 502)
    ensures result.ChatFailed? ==>
      ReplyFor(result).body.Obj? && ReplyFor(result).body.fields.Keys == {"error", "details"}
    ensures result.ChatFailed? ==>
      ReplyFor(result).body.fields["error"] == (if Truthy(result.error) then result.error else Str("chat_failed"))
    ensures result.ChatFailed? ==>
      ReplyFor(result).body.fields["details"] == (if Truthy(result.details) then result.details else Null)
  {
  }

  /** A chat result's response has a success status exactly when the result is a success. */
  lemma ReplyForStatus(result: ChatResult)
    requires result.ChatFailed? ==> !IsSuccess(result.statusCode)
    ensures IsSuccess(ReplyFor(result).status) <==> result.ChatOk?
  {
  }

  /** The result of handling a chat request, with the upstream request made for it, if any. */
  datatype ChatHandling = ChatHandling(reply: ApiReply, sent: Option<UpstreamCall>)

  /**
   * `handleApiChat` on a request whose body arrives as `chunks` and ends as
   * `end`: read the body, parse it (an empty body meaning `{}`), require a
   * non-blank message, then relay the proxy's result.
   */
  function HandleApiChat(config: Config, chunks: seq<string>, end: StreamEnd, parse: Parser, fetch: Fetcher): (h: ChatHandling)
    ensures ReadBodySpec(chunks, end, BodyLimit).Rejected? ==>
      h == ChatHandling(ServerError(ReadBodySpec(chunks, end, BodyLimit).error), None)
    ensures h.sent.Some? ==> config.apiKey != "" && ReadBodySpec(chunks, end, BodyLimit).Complete?
    ensures h.sent.Some? ==> h.sent.value.endpoint == Endpoint(config) && h.sent.value.apiKey == config.apiKey
  {
    match ReadBodySpec(chunks, end, BodyLimit)
    case Rejected(e) => ChatHandling(ServerError(e), None)
    case Complete(raw) =>
      var parsed := if raw == "" then Parsed(Obj(map[])) else parse(raw);
      match parsed
      case SyntaxError(e) => ChatHandling(ServerError(e), None)
      case Parsed(body) =>
        match ChatRequestOf(body)
        case None => ChatHandling(ServerError(ConversionError), None)
        case Some(req) =>
          if req.message == "" then
            ChatHandling(ApiReply(400, Obj(map["error" := Str("message is required")])), None)
          else
            var x := RequestSimsimiReply(config, req, parse, fetch);
            ChatHandling(ReplyFor(x.result), x.sent)
  }

  /** A non-empty body that `JSON.parse` rejects is caught: 500 `server_error` with the parser's message, nothing sent. */
  lemma ParseFailureIsServerError(config: Config, chunks: seq<string>, end: StreamEnd, parse: Parser, fetch: Fetcher)
    requires ReadBodySpec(chunks, end, BodyLimit).Complete?
    requires ReadBodySpec(chunks, end, BodyLimit).raw != ""
    requires parse(ReadBodySpec(chunks, end, BodyLimit).raw).SyntaxError?
    ensures HandleApiChat(config, chunks, end, parse, fetch) ==
      ChatHandling(ServerError(parse(ReadBodySpec(chunks, end, BodyLimit).raw).error), None)
  {
  }

  /** The request the handler would hand to the proxy, or None when it answers before that. */
  function PreparedRequest(chunks: seq<string>, end: StreamEnd, parse: Parser): Option<ChatRequest>
  {
    match ReadBodySpec(chunks, end, BodyLimit)
    case Rejected(_) => None
    case Complete(raw) =>
      var parsed := if raw == "" then Parsed(Obj(map[])) else parse(raw);
      match parsed
      case SyntaxError(_) => None
      case Parsed(body) => ChatRequestOf(body)
  }

  /** A prepared, non-blank request is handed to the proxy, and its result is sent as `ReplyFor` says. */
  lemma HandlerRelaysResult(config: Config, chunks: seq<string>, end: StreamEnd, parse: Parser, fetch: Fetcher)
    requires PreparedRequest(chunks, end, parse).Some?
    requires PreparedRequest(chunks, end, parse).value.message != ""
    ensures var x := RequestSimsimiReply(config, PreparedRequest(chunks, end, parse).value, parse, fetch);
      HandleApiChat(config, chunks, end, parse, fetch) == ChatHandling(ReplyFor(x.result), x.sent)
  {
  }

  /** A field whose `String()` conversion throws is caught: 500 `server_error` with the conversion error, nothing sent. */
  lemma ConversionErrorIsServerError(config: Config, chunks: seq<string>, end: StreamEnd, parse: Parser, fetch: Fetcher, body: Json)
    requires ReadBodySpec(chunks, end, BodyLimit).Complete?
    requires ReadBodySpec(chunks, end, BodyLimit).raw != ""
    requires parse(ReadBodySpec(chunks, end, BodyLimit).raw) == Parsed(body)
    requires ChatRequestOf(body).None?
    ensures HandleApiChat(config, chunks, end, parse, fetch) == ChatHandling(ServerError(ConversionError), None)
  {
  }

  /** Without a key, a non-blank request is answered 500 `SIMSIMI_API_KEY is missing` with `details: null`, nothing sent. */
  lemma MissingKeyRelayed(config: Config, chunks: seq<string>, end: StreamEnd, parse: Parser, fetch: Fetcher)
    requires PreparedRequest(chunks, end, parse).Some?
    requires PreparedRequest(chunks, end, parse).value.message != ""
    requires config.apiKey == ""
    ensures HandleApiChat(config, chunks, end, parse, fetch) ==
      ChatHandling(ApiReply(500, Obj(map["error" := Str("SIMSIMI_API_KEY is missing"), "details" := Null])), None)
  {
    HandlerRelaysResult(config, chunks, end, parse, fetch);
    MissingKeyReply();
  }

  /** How the missing-key result is sent: `statusCode` 500, the error text, and `undefined || null`. */
  lemma MissingKeyReply()
    ensures ReplyFor(ChatFailed(500, Str("SIMSIMI_API_KEY is missing"), Undefined)) ==
      ApiReply(500, Obj(map["error" := Str("SIMSIMI_API_KEY is missing"), "details" := Null]))
  {
    assert Or(Str("SIMSIMI_API_KEY is missing"), Str("chat_failed")) == Str("SIMSIMI_API_KEY is missing");
    assert Or(Undefined, Null) == Null;
  }

  /**
   * The upstream is called exactly when the body was read and parsed, its
   * fields converted, the message is not blank and a key is configured;
   * the call carries the prepared request.
   */
  lemma UpstreamCalledIff(config: Config, chunks: seq<string>, end: StreamEnd, parse: Parser, fetch: Fetcher)
    ensures var h := HandleApiChat(config, chunks, end, parse, fetch);
      var p := PreparedRequest(chunks, end, parse);
      h.sent.Some? <==> p.Some? && p.value.message != "" && config.apiKey != ""
    ensures var h := HandleApiChat(config, chunks, end, parse, fetch);
      var p := PreparedRequest(chunks, end, parse);
      h.sent.Some? ==> h.sent.value == UpstreamCall(Endpoint(config), config.apiKey, OutboundPayload(p.value))
  {
  }

  /** A message that is missing, empty or blank gets a 400 and the upstream is not called. */
  lemma BlankMessageRejected(config: Config, chunks: seq<string>, end: StreamEnd, parse: Parser, fetch: Fetcher)
    requires PreparedRequest(chunks, end, parse).Some?
    requires PreparedRequest(chunks, end, parse).value.message == ""
    ensures HandleApiChat(config, chunks, end, parse, fetch) ==
      ChatHandling(ApiReply(400, Obj(map["error" := Str("message is required")])), None)
  {
  }

  /**
   * A body that parses to an object whose `message` is a blank string, with
   * `lang` and `talkKey` strings or absent, gets a 400 and the upstream is not called.
   */
  lemma BlankParsedMessageRejected(config: Config, chunks: seq<string>, end: StreamEnd, parse: Parser, fetch: Fetcher, b: Json, m: string)
    requires ReadBodySpec(chunks, end, BodyLimit).Complete?
    requires ReadBodySpec(chunks, end, BodyLimit).raw != ""
    requires parse(ReadBodySpec(chunks, end, BodyLimit).raw) == Parsed(b)
    requires Get(b, "message") == Str(m) && AllWhitespace(m)
    requires StringOrFalsy(Get(b, "lang")) && StringOrFalsy(Get(b, "talkKey"))
    ensures HandleApiChat(config, chunks, end, parse, fetch) ==
      ChatHandling(ApiReply(400, Obj(map["error" := Str("message is required")])), None)
  {
    assert PreparedRequest(chunks, end, parse) == ChatRequestOf(b);
    ChatRequestConverts(b);
    ChatRequestMessage(b);
    assert Trim(m) == "";
    BlankMessageRejected(config, chunks, end, parse, fetch);
  }

  /** `{}` gives an empty message (and the default language). */
  lemma EmptyObjectHasNoMessage()
    ensures ChatRequestOf(Obj(map[])).Some?
    ensures ChatRequestOf(Obj(map[])).value.message == ""
  {
    assert Or(Get(Obj(map[]), "message"), Str("")) == Str("");
    assert Or(Get(Obj(map[]), "lang"), Str("ko")) == Str("ko");
    assert Trim("") == "";
  }

  /** An empty object as body (`{}`) has no message: 400, no upstream call. */
  lemma EmptyObjectBodyRejected(config: Config, chunks: seq<string>, parse: Parser, fetch: Fetcher)
    requires Utf16Length(Concat(chunks)) <= BodyLimit
    requires Concat(chunks) != "" ==> parse(Concat(chunks)) == Parsed(Obj(map[]))
    ensures HandleApiChat(config, chunks, Ended, parse, fetch) ==
      ChatHandling(ApiReply(400, Obj(map["error" := Str("message is required")])), None)
  {
    EmptyObjectHasNoMessage();
    EmptyObjectPrepared(chunks, parse);
    BlankMessageRejected(config, chunks, Ended, parse, fetch);
  }

  /** A complete body that is empty or parses to `{}` is prepared as the fields of `{}`. */
  lemma EmptyObjectPrepared(chunks: seq<string>, parse: Parser)
    requires Utf16Length(Concat(chunks)) <= BodyLimit
    requires Concat(chunks) != "" ==> parse(Concat(chunks)) == Parsed(Obj(map[]))
    ensures PreparedRequest(chunks, Ended, parse) == ChatRequestOf(Obj(map[]))
  {
    assert ReadBodySpec(chunks, Ended, BodyLimit) == Complete(Concat(chunks));
  }

  /** A body over the limit is answered 500 `server_error` with `body_too_large`, and nothing is sent upstream. */
  lemma OversizeBodyIsServerError(config: Config, chunks: seq<string>, end: StreamEnd, parse: Parser, fetch: Fetcher)
    requires Utf16Length(Concat(chunks)) > BodyLimit
    ensures HandleApiChat(config, chunks, end, parse, fetch) ==
      ChatHandling(ApiReply(500, Obj(map["error" := Str("server_error"), "details" := Str("body_too_large")])), None)
  {
  }

  /** The handler answers with a success status exactly when the proxy replied. */
  lemma HandlerSuccessIff(config: Config, chunks: seq<string>, end: StreamEnd, parse: Parser, fetch: Fetcher)
    ensures var h := HandleApiChat(config, chunks, end, parse, fetch);
      IsSuccess(h.reply.status) <==>
        h.sent.Some? && RequestSimsimiReply(config, PreparedRequest(chunks, end, parse).value, parse, fetch).result.ChatOk?
  {
    var h := HandleApiChat(config, chunks, end, parse, fetch);
    UpstreamCalledIff(config, chunks, end, parse, fetch);
    if h.sent.Some? {
      var x := RequestSimsimiReply(config, PreparedRequest(chunks, end, parse).value, parse, fetch);
      ReplyForStatus(x.result);
    }
  }
}
