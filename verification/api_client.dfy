/**
 * The frontend's API client (frontend/src/app/lib/api.ts): the base URL is
 * normalised to end in exactly one `/api`, paths are joined under it, and
 * `apiFetch` sends a request with the in-memory access token, refreshes the
 * token once on a 401 and retries, and turns an error reply into a message.
 *
 * The network is a parameter: `send` is the server's reply to the request
 * carrying a given `Authorization` header, and the refresh call's reply is
 * given as data. `JSON.parse` and `String(v)` are parameters as well.
 */
module ApiClient {
  import opened Text
  import opened Wrappers
  import opened JsModel

  // ---------------------------------------------------------------------
  // Base URL
  // ---------------------------------------------------------------------

  const DefaultBase: string := "http://localhost:8000"

  /** `RAW_BASE`: the configured base unless it is unset or empty. */
  function RawBase(env: Option<string>): (r: string)
    ensures env.Some? && env.value != "" ==> r == env.value
    ensures env.None? || env.value == "" ==> r == DefaultBase
  {
    if env.Some? && env.value != "" then env.value else DefaultBase
  }

  /** `s.replace(/\/+$/, "")`: the trailing run of slashes removed. */
  function StripTrailingSlashes(s: string): (r: string)
    ensures |r| <= |s| && r == s[..|r|]
    ensures |r| == 0 || r[|r| - 1] != '/'
    ensures forall i :: |r| <= i < |s| ==> s[i] == '/'
  {
    if |s| > 0 && s[|s| - 1] == '/' then StripTrailingSlashes(s[..|s| - 1]) else s
  }

  /** `API_BASE` from the cleaned base: `/api` is appended only when it is not already the ending. */
  function WithApiSuffix(clean: string): (r: string)
    ensures EndsWith(r, "/api")
    ensures EndsWith(clean, "/api") ==> r == clean
    ensures !EndsWith(clean, "/api") ==> r == clean + "/api"
  {
    if EndsWith(clean, "/api") then clean
    else
      assert (clean + "/api")[|clean|..] == "/api";
      clean + "/api"
  }

  /** `API_BASE` from the environment. */
  function ApiBase(env: Option<string>): (r: string)
    ensures EndsWith(r, "/api")
    ensures r[|r| - 1] != '/'
  {
    WithApiSuffix(StripTrailingSlashes(RawBase(env)))
  }

  /** A text whose last character is not a slash has no trailing slashes to strip. */
  lemma StripNothing(s: string)
    requires |s| == 0 || s[|s| - 1] != '/'
    ensures StripTrailingSlashes(s) == s
  {
  }

  /** Configuring the computed base again changes nothing: the normalisation is idempotent. */
  lemma ApiBaseIdempotent(env: Option<string>)
    ensures ApiBase(Some(ApiBase(env))) == ApiBase(env)
  {
    var b := ApiBase(env);
    assert b != "";
    calc {
      ApiBase(Some(b));
      WithApiSuffix(StripTrailingSlashes(RawBase(Some(b))));
      WithApiSuffix(StripTrailingSlashes(b));
      { StripNothing(b); }
      WithApiSuffix(b);
      b;
    }
  }

  /** A base that already ends in `/api`, with or without trailing slashes, gets no second `/api`. */
  lemma NoDoubleApi(host: string)
    requires host != "" && host[|host| - 1] != '/'
    ensures ApiBase(Some(host + "/api/")) == host + "/api"
    ensures ApiBase(Some(host + "/api")) == host + "/api"
  {
    var a := host + "/api";
    assert a + "/" == host + "/api/";
    assert a[|a| - 1] == 'i';
    StripNothing(a);
    assert EndsWith(a, "/api") by {
      assert a[|a| - 4..] == "/api";
    }
    assert WithApiSuffix(a) == a;
    assert StripTrailingSlashes(a + "/") == a by {
      assert (a + "/")[..|a|] == a;
    }
    assert RawBase(Some(a + "/")) == a + "/";
    assert RawBase(Some(a)) == a;
  }

  /** `path.replace(/^\/+/, "")`: the leading run of slashes removed. */
  function StripLeadingSlashes(s: string): (r: string)
    ensures |r| <= |s| && r == s[|s| - |r|..]
    ensures |r| == 0 || r[0] != '/'
    ensures forall i :: 0 <= i < |s| - |r| ==> s[i] == '/'
  {
    if |s| > 0 && s[0] == '/' then StripLeadingSlashes(s[1..]) else s
  }

  /** `apiUrl`: the path joined under the base with exactly one slash. */
  function ApiUrl(base: string, path: string): (r: string)
    ensures StartsWith(r, base + "/")
    ensures |r| > |base| + 1 ==> r[|base| + 1] != '/'
    ensures r[|base| + 1..] == StripLeadingSlashes(path)
  {
    var clean := StripLeadingSlashes(path);
    assert (base + "/" + clean)[..|base| + 1] == base + "/";
    assert (base + "/" + clean)[|base| + 1..] == clean;
    base + "/" + clean
  }

  /** Leading slashes of the path make no difference. */
  lemma ApiUrlIgnoresLeadingSlash(base: string, path: string)
    ensures ApiUrl(base, "/" + path) == ApiUrl(base, path)
  {
    assert ("/" + path)[1..] == path;
  }

  // ---------------------------------------------------------------------
  // Replies
  // ---------------------------------------------------------------------

  /** `JSON.parse`; `None` where it throws. */
  type ParseFn = string -> Option<JsVal>

  /** `parseSafe`: `null` for no or empty text, the parsed value, or the raw text when it is not JSON. */
  function ParseSafe(parse: ParseFn, text: Option<string>): (r: JsVal)
    ensures text.None? || text.value == "" ==> r == Null
    ensures text.Some? && text.value != "" && parse(text.value).Some? ==> r == parse(text.value).value
    ensures text.Some? && text.value != "" && parse(text.value).None? ==> r == Str(text.value)
  {
    match text
    case None => Null
    case Some(t) =>
      if t == "" then Null
      else match parse(t)
        case Some(v) => v
        case None => Str(t)
  }

  /** A reply to a request: status, status text and body (`None` when reading the body fails), or a network failure. */
  datatype Reply = Reply(status: int, statusText: string, body: Option<string>) | NetworkError

  /** `res.ok`. */
  predicate Ok(status: int) {
    200 <= status <= 299
  }

  /** The refresh call: it throws, or replies with a status and the parsed JSON (`None` when that fails). */
  datatype RefreshReply = RefreshThrew | RefreshResponded(status: int, json: Option<JsVal>)

  /** The stored token afterwards and the token `refreshAccessToken` returns (`null` for none). */
  datatype RefreshResult = RefreshResult(stored: JsVal, returned: JsVal)

  /**
   * A token the `[AUTH]` log lines can print: they call `t.substring(0, 20)`
   * on a truthy token, which exists only on strings, so any other truthy
   * value makes `setAccessToken`, `getAccessToken` and `doFetchWithAuth` throw.
   */
  predicate Loggable(t: JsVal) {
    !Truthy(t) || t.Str?
  }

  /**
   * The error that reaches `apiFetch` for a stored token that is truthy but
   * not a string: `getAccessToken`'s log line calls `accessToken.substring`
   * first (api.ts:41), before `doFetchWithAuth` reaches its own.
   */
  const SubstringError: string := "TypeError: accessToken.substring is not a function"

  /** The `access_token` field of a refresh reply's JSON (`{}` when it did not parse). */
  function TokenOf(json: Option<JsVal>): JsVal {
    Get(json.GetOr(Obj(map[])), "access_token")
  }

  /**
   * `refreshAccessToken`. `setAccessToken` stores a truthy token before its
   * log line runs; for a token that is not a string that line throws, and
   * the `catch` clears the token again and returns `null`.
   */
  function RefreshAccessToken(reply: RefreshReply, current: JsVal): (r: RefreshResult)
    ensures reply.RefreshThrew? ==> r == RefreshResult(Null, Null)
    ensures reply.RefreshResponded? && !Ok(reply.status) ==> r == RefreshResult(Null, Null)
    ensures Truthy(r.returned) ==> r.stored == r.returned && r.returned.Str?
                                   && reply.RefreshResponded? && Ok(reply.status) && r.returned == TokenOf(reply.json)
    ensures !Truthy(r.returned) ==> r.returned == Null
    ensures reply.RefreshResponded? && Ok(reply.status) && !Truthy(TokenOf(reply.json)) ==> r == RefreshResult(current, Null)
    ensures reply.RefreshResponded? && Ok(reply.status) && !Loggable(TokenOf(reply.json)) ==> r == RefreshResult(Null, Null)
    ensures Loggable(current) ==> Loggable(r.stored)
  {
    match reply
    case RefreshThrew => RefreshResult(Null, Null)
    case RefreshResponded(status, json) =>
      if !Ok(status) then RefreshResult(Null, Null)
      else
        var token := TokenOf(json);
        if !Truthy(token) then RefreshResult(current, Null)
        else if token.Str? then RefreshResult(token, token)
        else RefreshResult(Null, Null)
  }

  /**
   * The `Authorization` header `doFetchWithAuth` sends with the stored
   * token, or the error its log line throws first.
   */
  function AuthHeader(token: JsVal): (h: Result<Option<string>, string>)
    ensures h.Failure? <==> !Loggable(token)
    ensures h.Success? ==> (h.value.Some? <==> Truthy(token))
    ensures h.Success? && h.value.Some? ==> StartsWith(h.value.value, "Bearer ") && h.value.value[7..] == token.s
  {
    if !Truthy(token) then Success(None)
    else if !token.Str? then Failure(SubstringError)
    else
      var h := "Bearer " + token.s;
      assert h[..7] == "Bearer " && h[7..] == token.s;
      Success(Some(h))
  }

  /** The `${res.status} ${res.statusText}` fallback. */
  function StatusLine(status: int, statusText: string): string {
    IntToString(status) + " " + statusText
  }

  /** The value `apiFetch` throws with for an error reply, before `new Error` turns it into text. */
  function ErrorValue(data: JsVal, status: int, statusText: string): (v: JsVal)
    ensures data.Str? && data.s != "" ==> v == data
    ensures !(data.Str? && data.s != "") && Truthy(data) && Truthy(Get(data, "detail")) ==> v == Get(data, "detail")
    ensures !(data.Str? && data.s != "") && Truthy(data) && !Truthy(Get(data, "detail")) && Truthy(Get(data, "message")) ==> v == Get(data, "message")
    ensures !(data.Str? && data.s != "") && !(Truthy(data) && Truthy(Or(Get(data, "detail"), Get(data, "message")))) ==> v == Str(StatusLine(status, statusText))
  {
    var first := if data.Str? then data else Bool(false);
    if Truthy(first) then first
    else
      var second := if Truthy(data) then Or(Get(data, "detail"), Get(data, "message")) else data;
      if Truthy(second) then second else Str(StatusLine(status, statusText))
  }

  /** A 401 reply, the one `apiFetch` answers with a refresh. */
  predicate Unauthorized(r: Reply) {
    r.Reply? && r.status == 401
  }

  /** What `apiFetch` did: the `Authorization` headers it sent, whether it refreshed, the stored token afterwards, and its value or error message. */
  datatype Outcome = Outcome(sent: seq<Option<string>>, refreshed: bool, token: JsVal, result: Result<JsVal, string>)

  /** The server: its reply to a request with the given `Authorization` header. */
  type SendFn = Option<string> -> Reply

  /** The value or error message of the reply `apiFetch` settles on. */
  function Settle(parse: ParseFn, show: ShowFn, reply: Reply): (r: Result<JsVal, string>)
    ensures reply.NetworkError? ==> r.Failure?
    ensures reply.Reply? ==> (r.Success? <==> Ok(reply.status))
    ensures reply.Reply? && Ok(reply.status) ==> r.value != Null && r.value != Undefined
    ensures reply.Reply? && Ok(reply.status) && reply.body.GetOr("") == "" ==> r.value == Obj(map[])
  {
    match reply
    case NetworkError => Failure("TypeError: Failed to fetch")
    case Reply(status, statusText, body) =>
      var text := body.GetOr("");
      var data := ParseSafe(parse, Some(text));
      if !Ok(status) then Failure(ToJsString(show, ErrorValue(data, status, statusText)))
      else if data == Null || data == Undefined then Success(Obj(map[]))
      else Success(data)
  }

  /**
   * `apiFetch`. With a stored token its log lines cannot print, the first
   * request is never sent and the call rejects.
   */
  function ApiFetch(send: SendFn, refresh: RefreshReply, parse: ParseFn, show: ShowFn, token: JsVal): (o: Outcome)
    ensures !Loggable(token) ==> o == Outcome([], false, token, Failure(SubstringError))
    ensures Loggable(token) ==> 1 <= |o.sent| <= 2 && AuthHeader(token) == Success(o.sent[0])
    ensures Loggable(token) ==> (o.refreshed <==> Unauthorized(send(o.sent[0])))
    ensures |o.sent| == 2 <==> o.refreshed && Truthy(RefreshAccessToken(refresh, token).returned)
    ensures |o.sent| == 2 ==> AuthHeader(o.token) == Success(o.sent[1]) && o.sent[1].Some?
    ensures |o.sent| == 2 ==> o.result == Settle(parse, show, send(o.sent[1]))
    ensures |o.sent| == 1 ==> o.result == Settle(parse, show, send(o.sent[0]))
    ensures !o.refreshed ==> o.token == token
    ensures o.refreshed ==> o.token == RefreshAccessToken(refresh, token).stored
    ensures Loggable(token) ==> Loggable(o.token)
  {
    match AuthHeader(token)
    case Failure(e) => Outcome([], false, token, Failure(e))
    case Success(h1) =>
      var first := send(h1);
      if Unauthorized(first) then
        var rr := RefreshAccessToken(refresh, token);
        if Truthy(rr.returned) then
          var h2 := AuthHeader(rr.stored).value;
          Outcome([h1, h2], true, rr.stored, Settle(parse, show, send(h2)))
        else Outcome([h1], true, rr.stored, Settle(parse, show, first))
      else Outcome([h1], false, token, Settle(parse, show, first))
  }

  /** A failed or throwing refresh clears the stored token, and the 401 reply stands. */
  lemma FailedRefreshClearsToken(send: SendFn, refresh: RefreshReply, parse: ParseFn, show: ShowFn, token: JsVal)
    requires Loggable(token) && Unauthorized(send(AuthHeader(token).value))
    requires refresh.RefreshThrew? || !Ok(refresh.status)
    ensures ApiFetch(send, refresh, parse, show, token).token == Null
    ensures |ApiFetch(send, refresh, parse, show, token).sent| == 1
    ensures ApiFetch(send, refresh, parse, show, token).result.Failure?
  {
  }

  /** A first reply other than 401, or no request at all, is final: the refresh reply plays no part. */
  lemma No401NoRefresh(send: SendFn, r1: RefreshReply, r2: RefreshReply, parse: ParseFn, show: ShowFn, token: JsVal)
    requires Loggable(token) ==> !Unauthorized(send(AuthHeader(token).value))
    ensures ApiFetch(send, r1, parse, show, token) == ApiFetch(send, r2, parse, show, token)
    ensures Loggable(token) ==> ApiFetch(send, r1, parse, show, token).result == Settle(parse, show, send(AuthHeader(token).value))
  {
  }

  /**
   * A refresh reply whose `access_token` is truthy but not a string leaves
   * no token behind and no retry, even though the refresh call succeeded.
   */
  lemma NonStringRefreshTokenDropped(send: SendFn, parse: ParseFn, show: ShowFn, token: JsVal, t: JsVal)
    requires Loggable(token) && Unauthorized(send(AuthHeader(token).value)) && !Loggable(t)
    ensures var o := ApiFetch(send, RefreshResponded(200, Some(Obj(map["access_token" := t]))), parse, show, token);
            o.token == Null && |o.sent| == 1 && o.result.Failure?
  {
    assert TokenOf(Some(Obj(map["access_token" := t]))) == t;
  }

  /**
   * An error reply's message comes from, in order: a non-empty string body,
   * the body's `detail`, its `message`, and the status line.
   */
  lemma ErrorMessagePrecedence(parse: ParseFn, show: ShowFn, status: int, statusText: string, body: string)
    requires !Ok(status) && body != ""
    ensures parse(body).None? ==> Settle(parse, show, Reply(status, statusText, Some(body))) == Failure(body)
    ensures parse(body) == Some(Obj(map["detail" := Str("Not found")])) ==>
      Settle(parse, show, Reply(status, statusText, Some(body))) == Failure("Not found")
    ensures parse(body) == Some(Obj(map["message" := Str("Bad")])) ==>
      Settle(parse, show, Reply(status, statusText, Some(body))) == Failure("Bad")
    ensures parse(body) == Some(Obj(map[])) ==>
      Settle(parse, show, Reply(status, statusText, Some(body))) == Failure(StatusLine(status, statusText))
  {
  }

  /** An empty error body gives the status line. */
  lemma EmptyErrorBody(parse: ParseFn, show: ShowFn, status: int, statusText: string)
    requires !Ok(status)
    ensures Settle(parse, show, Reply(status, statusText, Some(""))) == Failure(StatusLine(status, statusText))
    ensures Settle(parse, show, Reply(status, statusText, None)) == Failure(StatusLine(status, statusText))
  {
  }
}
