/** `RequestResponseLoggingMiddleware` and `dict_converter` (`app/middleware.py`, present with
    the same text in both projects): every request outside the documentation and admin paths is
    logged as an `APILog` row, with secret request fields and the tokens of a response masked.
    Bodies are JSON values; the JSON text a body is sent or logged as is represented by the
    value it encodes. The clock reading of `time.time()` is a parameter; the response time, a
    float, is not recorded. */
module Middleware {
  import opened Wrappers
  import opened Text

  /** A JSON document as `json.loads` returns it; an object keeps its keys in order, each once. */
  datatype Json = JNull | JBool(b: bool) | JNum(n: int) | JStr(s: string) | JArray(items: seq<Json>)
                | JObject(entries: seq<(string, Json)>)

  /** The document holds `true`, `false` or `null` somewhere: names `ast.literal_eval` refuses. */
  predicate HasJsonWord(j: Json)
    decreases j
  {
    match j
    case JNull => true
    case JBool(_) => true
    case JNum(_) => false
    case JStr(_) => false
    case JArray(items) => exists k :: 0 <= k < |items| && HasJsonWord(items[k])
    case JObject(entries) => exists k :: 0 <= k < |entries| && HasJsonWord(entries[k].1)
  }

  /** The string `s` is one of the document's strings (a key or a value), so its text shows it. */
  predicate Mentions(j: Json, s: string)
    decreases j
  {
    match j
    case JStr(v) => v == s
    case JArray(items) => exists k :: 0 <= k < |items| && Mentions(items[k], s)
    case JObject(entries) => exists k :: 0 <= k < |entries| && (entries[k].0 == s || Mentions(entries[k].1, s))
    case _ => false
  }

  /** Python's `key in d` on a dict. */
  predicate HasKey(entries: seq<(string, Json)>, key: string)
  {
    exists k :: 0 <= k < |entries| && entries[k].0 == key
  }

  /** Python's `d[key]`, for a key the dict holds. */
  function Lookup(entries: seq<(string, Json)>, key: string): Json
    requires HasKey(entries, key)
  {
    if entries[0].0 == key then entries[0].1 else Lookup(entries[1..], key)
  }

  /** Python's `d[key] = value` on a key the dict holds, or not. */
  function Put(entries: seq<(string, Json)>, key: string, value: Json): (r: seq<(string, Json)>)
    ensures |r| == |entries|
  {
    seq(|entries|, k requires 0 <= k < |entries| => if entries[k].0 == key then (key, value) else entries[k])
  }

  /** The raw data `dict_converter` is given: a JSON text, a form's `QueryDict`, or other text. */
  datatype Raw = JsonText(json: Json) | FormData(fields: seq<(string, seq<string>)>) | PlainText(text: string)

  /** What `dict_converter` returns: the value the data spells, or the data itself wrapped in a
      one-element list. */
  datatype Logged = Evaluated(value: Json) | Wrapped(raw: Raw)

  /** `dict_converter` as written: `ast.literal_eval` reads a JSON text as a Python literal, which
      fails on `true`, `false` and `null`; a `QueryDict` is not a string or a syntax tree, and
      text that is not JSON spells no literal, so both are wrapped. */
  function DictConverterAsWritten(raw: Raw): Logged
  {
    match raw
    case JsonText(j) => if HasJsonWord(j) then Wrapped(raw) else Evaluated(j)
    case _ => Wrapped(raw)
  }

  /** `dict_converter` reading a JSON text as JSON, as the masking after it needs: every JSON
      text is evaluated; other data is wrapped as before. */
  function DictConverter(raw: Raw): (r: Logged)
    ensures raw.JsonText? ==> r == Evaluated(raw.json)
  {
    match raw
    case JsonText(j) => Evaluated(j)
    case _ => Wrapped(raw)
  }

  /** As written, a JSON text is evaluated exactly when it holds none of `true`, `false`,
      `null`; otherwise the log keeps the whole text, in a list. The corrected converter agrees
      with it on every text without those words. */
  lemma DictConverterFallback(raw: Raw)
    ensures raw.JsonText? ==> (DictConverterAsWritten(raw).Wrapped? <==> HasJsonWord(raw.json))
    ensures !raw.JsonText? ==> DictConverterAsWritten(raw) == Wrapped(raw) == DictConverter(raw)
    ensures raw.JsonText? && !HasJsonWord(raw.json) ==> DictConverterAsWritten(raw) == DictConverter(raw)
  {
  }

  /** The paths whose requests are never logged. */
  const EXCLUDED_PATHS: seq<string> := ["/admin/", "swagger/", "/api/v1/docs", "openapi.json"]

  predicate ExcludedPath(path: string)
  {
    exists k :: 0 <= k < |EXCLUDED_PATHS| && Contains(path, EXCLUDED_PATHS[k])
  }

  /** A request key whose value is masked: its lower-case form holds "password" or "refresh". */
  predicate SecretKey(key: string)
  {
    Contains(Lower(key), "password") || Contains(Lower(key), "refresh")
  }

  const REQUEST_MASK: string := "*****"
  const TOKEN_MASK: string := "******"

  /** The request fields with every secret key's value masked. */
  function MaskedEntries(entries: seq<(string, Json)>): seq<(string, Json)>
  {
    seq(|entries|, k requires 0 <= k < |entries| => if SecretKey(entries[k].0) then (entries[k].0, JStr(REQUEST_MASK)) else entries[k])
  }

  /** The masking loop over the keys of a JSON object body, `data[key] = "*****"` in place. */
  method MaskSecretKeys(entries: seq<(string, Json)>) returns (data: seq<(string, Json)>)
    ensures |data| == |entries|
    ensures forall k :: 0 <= k < |entries| ==> data[k].0 == entries[k].0
    ensures forall k :: 0 <= k < |entries| ==> data[k].1 == if SecretKey(entries[k].0) then JStr(REQUEST_MASK) else entries[k].1
  {
    data := entries;
    var i := 0;
    while i < |data|
      invariant 0 <= i <= |data| == |entries|
      invariant forall k :: 0 <= k < i ==> data[k] == if SecretKey(entries[k].0) then (entries[k].0, JStr(REQUEST_MASK)) else entries[k]
      invariant forall k :: i <= k < |data| ==> data[k] == entries[k]
    {
      var key := data[i].0;
      if Contains(Lower(key), "password") {
        data := data[i := (key, JStr(REQUEST_MASK))];
      }
      if Contains(Lower(key), "refresh") {
        data := data[i := (key, JStr(REQUEST_MASK))];
      }
      i := i + 1;
    }
  }

  /** The masking loop run over a list body: iterating a list yields its items, so the first item
      that is not a string raises `AttributeError` on `key.lower()`, and the first string that
      looks secret raises `TypeError` on `data[key] = ...`. */
  function CheckListKeys(items: seq<Json>): Outcome
  {
    if items == [] then Pass
    else match items[0]
      case JStr(s) => if SecretKey(s) then Fail(Crash("TypeError")) else CheckListKeys(items[1..])
      case _ => Fail(Crash("AttributeError"))
  }

  /** The masking of a JSON request body; iterating a number, a boolean or `null` raises
      `TypeError`, and iterating a string yields single characters, which never spell a secret
      word. */
  function MaskBody(j: Json): Result<Json>
  {
    match j
    case JObject(entries) => Ok(JObject(MaskedEntries(entries)))
    case JArray(items) => if CheckListKeys(items).Fail? then Err(CheckListKeys(items).error) else Ok(j)
    case JStr(_) => Ok(j)
    case _ => Err(Crash("TypeError"))
  }

  /** The body of a request as the view reads it. */
  datatype JsonBody = EmptyBody | Parsed(json: Json) | Unparseable

  /** An uploaded file. */
  datatype UploadedFile = UploadedFile(name: string, size: nat)

  /** One entry of `request_files_info`. */
  datatype FileInfo = FileInfo(fileName: string, fileSize: nat)

  /** What the middleware reads of a request; `post` and `files` are empty unless the body is a
      form; `user` is the signed-in username, `None` for the anonymous user. */
  datatype HttpRequest = HttpRequest(httpMethod: string, path: string, query: string, contentType: string,
                                     body: JsonBody, post: seq<(string, seq<string>)>, files: seq<UploadedFile>,
                                     user: Option<string>)

  /** The content of a response: none, a JSON document, or other bytes (shown as text). */
  datatype Content = NoContent | JsonDoc(json: Json) | Opaque(text: string)

  datatype HttpResponse = HttpResponse(status: int, contentType: string, content: Content)

  /** `log_dict`. The two response fields are absent until `process_response` sets them. */
  datatype LogDict = LogDict(httpMethod: string, path: string, queryParams: string, contentType: string,
                             requestBody: Option<Logged>, requestFilesInfo: Option<seq<FileInfo>>,
                             statusCode: Option<int>, responseBody: Option<Option<Logged>>)

  /** An `APILog` row: the logged fields and the user who made the request. */
  datatype ApiLog = ApiLog(log: LogDict, createdBy: Option<string>)

  const JSON_TYPE: string := "application/json"
  const MULTIPART_TYPE: string := "multipart/form-data"
  const URLENCODED_TYPE: string := "application/x-www-form-urlencoded"
  const NOT_JSON_PLACEHOLDER: string := "Response may be in file."

  /** The file list of a multipart request: one entry per file, in order. */
  function FilesInfo(files: seq<UploadedFile>): (r: seq<FileInfo>)
    ensures |r| == |files|
    ensures forall k :: 0 <= k < |files| ==> r[k] == FileInfo(files[k].name, files[k].size)
  {
    if files == [] then [] else [FileInfo(files[0].name, files[0].size)] + FilesInfo(files[1..])
  }

  /** The `log_dict` `process_request` builds: `None` on an excluded path; a JSON body is masked
      and converted, a form's `POST` is converted, and a multipart request lists its files.
      A body that is not JSON under the JSON type raises `JSONDecodeError`. */
  function RequestLog(req: HttpRequest, convert: Raw -> Logged): Result<Option<LogDict>>
  {
    if ExcludedPath(req.path) then Ok(None)
    else
      var base := LogDict(req.httpMethod, req.path, req.query, req.contentType, None, None, None, None);
      if req.contentType == JSON_TYPE then
        match req.body
        case EmptyBody => Ok(Some(base))
        case Unparseable => Err(Crash("JSONDecodeError"))
        case Parsed(j) =>
          match MaskBody(j)
          case Err(e) => Err(e)
          case Ok(masked) => Ok(Some(base.(requestBody := Some(convert(JsonText(masked))))))
      else if MULTIPART_TYPE <= req.contentType then
        var withPost := if req.post != [] then base.(requestBody := Some(convert(FormData(req.post)))) else base;
        Ok(Some(if req.files != [] then withPost.(requestFilesInfo := Some(FilesInfo(req.files))) else withPost))
      else if req.contentType == URLENCODED_TYPE && req.post != [] then
        Ok(Some(base.(requestBody := Some(convert(FormData(req.post))))))
      else Ok(Some(base))
  }

  /** A request on a documentation or admin path is never logged, and every other request that
      does not raise is. */
  lemma ExcludedPathsNotLogged(req: HttpRequest, convert: Raw -> Logged)
    ensures ExcludedPath(req.path) <==> RequestLog(req, convert) == Ok(None)
    ensures !ExcludedPath(req.path) && RequestLog(req, convert).Ok? ==>
              var d := RequestLog(req, convert).value;
              d.Some? && d.value.path == req.path && d.value.httpMethod == req.httpMethod
              && d.value.statusCode.None? && d.value.responseBody.None?
  {
  }

  /** The logged JSON of a converted body, whether it was evaluated or kept as text. */
  function LoggedJson(l: Logged): Option<Json>
  {
    match l
    case Evaluated(j) => Some(j)
    case Wrapped(JsonText(j)) => Some(j)
    case Wrapped(_) => None
  }

  /** Masking happens before the conversion, so a JSON object body is logged with every secret
      value masked and every other value as sent, by either converter. */
  lemma RequestSecretsMasked(req: HttpRequest, entries: seq<(string, Json)>)
    requires !ExcludedPath(req.path) && req.contentType == JSON_TYPE && req.body == Parsed(JObject(entries))
    ensures forall convert :: convert == DictConverter || convert == DictConverterAsWritten ==>
              var d := RequestLog(req, convert);
              d.Ok? && d.value.Some? && d.value.value.requestBody.Some?
              && LoggedJson(d.value.value.requestBody.value) == Some(JObject(MaskedEntries(entries)))
    ensures forall k :: 0 <= k < |entries| && SecretKey(entries[k].0) ==> MaskedEntries(entries)[k] == (entries[k].0, JStr(REQUEST_MASK))
    ensures forall k :: 0 <= k < |entries| && !SecretKey(entries[k].0) ==> MaskedEntries(entries)[k] == entries[k]
  {
  }

  /** `token[key] = "******"` for the keys "access" and "refresh" of a token object; the `in`
      test on any other kind of value either finds nothing or raises. */
  function MaskTokenValue(token: Json): Result<Json>
  {
    match token
    case JObject(es) =>
      var withAccess := if HasKey(es, "access") then Put(es, "access", JStr(TOKEN_MASK)) else es;
      Ok(JObject(if HasKey(withAccess, "refresh") then Put(withAccess, "refresh", JStr(TOKEN_MASK)) else withAccess))
    case JArray(items) =>
      if JStr("access") in items || JStr("refresh") in items then Err(Crash("TypeError")) else Ok(token)
    case JStr(s) =>
      if Contains(s, "access") || Contains(s, "refresh") then Err(Crash("TypeError")) else Ok(token)
    case _ => Err(Crash("TypeError"))
  }

  /** The token masking of `process_response` on the converted body: `"token" in body` is a key
      test on a dict, a membership test on a list, a substring test on a string; reading
      `body["token"]` off anything but a dict raises. The token dict is the one inside the body,
      so masking it masks the body. */
  function MaskResponseToken(body: Option<Logged>): Result<Option<Logged>>
  {
    match body
    case None => Ok(None)
    case Some(Wrapped(raw)) => if raw == PlainText("token") then Err(Crash("TypeError")) else Ok(body)
    case Some(Evaluated(v)) =>
      match v
      case JObject(entries) =>
        if !HasKey(entries, "token") then Ok(body)
        else
          var t := MaskTokenValue(Lookup(entries, "token"));
          if t.Err? then Err(t.error) else Ok(Some(Evaluated(JObject(Put(entries, "token", t.value)))))
      case JArray(items) => if JStr("token") in items then Err(Crash("TypeError")) else Ok(body)
      case JStr(s) => if Contains(s, "token") then Err(Crash("TypeError")) else Ok(body)
      case JNull => Ok(body)
      case _ => Err(Crash("TypeError"))
  }

  /** The response body as converted: JSON content by `convert`; content of another type as the
      placeholder; empty content as `None`. */
  function ResponseBody(resp: HttpResponse, convert: Raw -> Logged): Option<Logged>
  {
    if resp.content == NoContent then None
    else if Contains(resp.contentType, JSON_TYPE) then
      match resp.content
      case JsonDoc(j) => Some(convert(JsonText(j)))
      case Opaque(text) => Some(convert(PlainText(text)))
    else Some(convert(PlainText(NOT_JSON_PLACEHOLDER)))
  }

  /** The response body as `process_response` logs it with `dict_converter` as written. */
  function LoggedResponseBodyAsWritten(resp: HttpResponse): Result<Option<Logged>>
  {
    MaskResponseToken(ResponseBody(resp, DictConverterAsWritten))
  }

  /** The response body as logged once JSON is read as JSON. */
  function LoggedResponseBody(resp: HttpResponse): Result<Option<Logged>>
  {
    MaskResponseToken(ResponseBody(resp, DictConverter))
  }

  /** A response of another type is logged as the placeholder text, by either converter. */
  lemma NonJsonResponsePlaceholder(resp: HttpResponse)
    requires resp.content != NoContent && !Contains(resp.contentType, JSON_TYPE)
    ensures LoggedResponseBody(resp) == Ok(Some(Wrapped(PlainText(NOT_JSON_PLACEHOLDER))))
    ensures LoggedResponseBodyAsWritten(resp) == LoggedResponseBody(resp)
  {
    assert PlainText(NOT_JSON_PLACEHOLDER) != PlainText("token");
  }

  /** The JSON answer of a successful `verify_otp`: the token pair, the message, the role, and
      the boolean `is_first_time_password_changed`. */
  function LoginBody(access: string, refresh: string, role: string, firstTime: bool): Json
  {
    JObject([("token", JObject([("refresh", JStr(refresh)), ("access", JStr(access))])),
             ("message", JStr("Login Successful.")), ("user_role", JStr(role)),
             ("is_first_time_password_changed", JBool(firstTime))])
  }

  /** As written, the tokens of every successful login are logged in the clear: the boolean
      makes `literal_eval` fail, the body is kept as its text in a list, `"token" in [text]` is
      false, and nothing is masked. */
  lemma LoginTokensLeakAsWritten(access: string, refresh: string, role: string, firstTime: bool)
    ensures var body := LoginBody(access, refresh, role, firstTime);
            LoggedResponseBodyAsWritten(HttpResponse(200, JSON_TYPE, JsonDoc(body)))
              == Ok(Some(Wrapped(JsonText(body))))
            && Mentions(body, access) && Mentions(body, refresh)
  {
    var body := LoginBody(access, refresh, role, firstTime);
    assert HasJsonWord(body.entries[3].1);
    assert Contains(JSON_TYPE, JSON_TYPE) by {
      assert JSON_TYPE <= JSON_TYPE[0..];
    }
    var token := body.entries[0].1;
    assert Mentions(token.entries[1].1, access) && Mentions(token.entries[0].1, refresh);
    assert Mentions(token, access) && Mentions(token, refresh);
  }

  /** The keys whose token values are masked in a response. */
  predicate TokenKey(key: string)
  {
    key == "access" || key == "refresh"
  }

  /** A JSON content type is one that holds "application/json". */
  lemma JsonTypeIsJson()
    ensures Contains(JSON_TYPE, JSON_TYPE)
  {
    assert JSON_TYPE <= JSON_TYPE[0..];
  }

  /** Masking a token object masks exactly its access and refresh entries. */
  lemma MaskTokenObject(es: seq<(string, Json)>)
    ensures MaskTokenValue(JObject(es)).Ok?
    ensures var t := MaskTokenValue(JObject(es)).value;
            t.JObject? && |t.entries| == |es|
            && forall m :: 0 <= m < |es| ==>
                 t.entries[m] == if TokenKey(es[m].0) then (es[m].0, JStr(TOKEN_MASK)) else es[m]
  {
    var withAccess := if HasKey(es, "access") then Put(es, "access", JStr(TOKEN_MASK)) else es;
    assert forall m :: 0 <= m < |es| ==>
             withAccess[m] == if es[m].0 == "access" then (es[m].0, JStr(TOKEN_MASK)) else es[m];
  }

  /** Read as JSON, a JSON object answer with a token is logged with the token's masked value
      in its place. */
  lemma ResponseTokenStep(resp: HttpResponse, entries: seq<(string, Json)>)
    requires Contains(resp.contentType, JSON_TYPE) && resp.content == JsonDoc(JObject(entries))
    requires HasKey(entries, "token") && MaskTokenValue(Lookup(entries, "token")).Ok?
    ensures LoggedResponseBody(resp)
            == Ok(Some(Evaluated(JObject(Put(entries, "token", MaskTokenValue(Lookup(entries, "token")).value)))))
  {
    assert ResponseBody(resp, DictConverter) == Some(Evaluated(JObject(entries)));
  }

  /** Read as JSON, the login answer is logged with both tokens masked and every other field as
      sent. */
  lemma LoginTokensMasked(access: string, refresh: string, role: string, firstTime: bool)
    ensures LoggedResponseBody(HttpResponse(200, JSON_TYPE, JsonDoc(LoginBody(access, refresh, role, firstTime))))
            == Ok(Some(Evaluated(LoginBody(TOKEN_MASK, TOKEN_MASK, role, firstTime))))
  {
    JsonTypeIsJson();
    var body := LoginBody(access, refresh, role, firstTime);
    var token := body.entries[0].1;
    assert HasKey(body.entries, "token") by {
      assert body.entries[0].0 == "token";
    }
    assert Lookup(body.entries, "token") == token;
    MaskTokenObject(token.entries);
    var masked := MaskTokenValue(token).value;
    assert masked.entries == [("refresh", JStr(TOKEN_MASK)), ("access", JStr(TOKEN_MASK))];
    ResponseTokenStep(HttpResponse(200, JSON_TYPE, JsonDoc(body)), body.entries);
    assert Put(body.entries, "token", masked) == LoginBody(TOKEN_MASK, TOKEN_MASK, role, firstTime).entries;
  }

  /** `masked` is the token object `tokenEntries` with its access and refresh values masked and
      every other entry kept. */
  predicate TokenEntriesMasked(tokenEntries: seq<(string, Json)>, masked: seq<(string, Json)>)
  {
    |masked| == |tokenEntries|
    && forall m :: 0 <= m < |tokenEntries| ==>
         masked[m] == if TokenKey(tokenEntries[m].0) then (tokenEntries[m].0, JStr(TOKEN_MASK)) else tokenEntries[m]
  }

  /** `logged` is the answer `entries` with its token object masked and every other entry kept. */
  predicate AnswerMasked(entries: seq<(string, Json)>, tokenEntries: seq<(string, Json)>, logged: seq<(string, Json)>)
  {
    |logged| == |entries|
    && (forall k :: 0 <= k < |entries| && entries[k].0 != "token" ==> logged[k] == entries[k])
    && (forall k :: 0 <= k < |entries| && entries[k].0 == "token" ==>
          logged[k].0 == "token" && logged[k].1.JObject? && TokenEntriesMasked(tokenEntries, logged[k].1.entries))
  }

  /** Read as JSON, any JSON object answer whose token is an object is logged with that token's
      access and refresh entries masked; no other entry of the token or of the body changes. */
  lemma ResponseTokenMasked(resp: HttpResponse, entries: seq<(string, Json)>, tokenEntries: seq<(string, Json)>)
      returns (logged: seq<(string, Json)>)
    requires Contains(resp.contentType, JSON_TYPE) && resp.content == JsonDoc(JObject(entries))
    requires HasKey(entries, "token") && Lookup(entries, "token") == JObject(tokenEntries)
    ensures LoggedResponseBody(resp) == Ok(Some(Evaluated(JObject(logged))))
    ensures AnswerMasked(entries, tokenEntries, logged)
  {
    MaskTokenObject(tokenEntries);
    ResponseTokenStep(resp, entries);
    var t := MaskTokenValue(JObject(tokenEntries)).value;
    assert TokenEntriesMasked(tokenEntries, t.entries);
    logged := Put(entries, "token", t);
  }

  /** `process_response` on a `log_dict`: the status and the converted, token-masked response
      body are written into it; `Pass` means the row is then saved. A masking that raises leaves
      the status and the unmasked body in the dict, and nothing is saved. */
  function ResponseLog(d: LogDict, resp: HttpResponse): (Outcome, LogDict)
  {
    var withBody := d.(statusCode := Some(resp.status), responseBody := Some(ResponseBody(resp, DictConverter)));
    match MaskResponseToken(ResponseBody(resp, DictConverter))
    case Err(e) => (Fail(e), withBody)
    case Ok(masked) => (Pass, d.(statusCode := Some(resp.status), responseBody := Some(masked)))
  }

  /** The logging middleware: one instance serves every request, so `log_dict` and `start_time`
      carry from a request to its response; `apiLogs` is the `APILog` table. */
  class RequestLogger {
    var logDict: Option<LogDict>
    var startTime: Option<int>
    var apiLogs: seq<ApiLog>

    constructor()
      ensures logDict.None? && startTime.None? && apiLogs == []
    {
      logDict, startTime, apiLogs := None, None, [];
    }

    /** `process_request`, at clock reading `now`. */
    method ProcessRequest(req: HttpRequest, now: int) returns (r: Outcome)
      modifies this`logDict, this`startTime
      ensures startTime == Some(now)
      ensures match RequestLog(req, DictConverter)
              case Err(e) => r == Fail(e) && logDict.None?
              case Ok(d) => r == Pass && logDict == d
    {
      startTime := Some(now);
      logDict := None;
      if ExcludedPath(req.path) {
        return Pass;
      }
      var d := LogDict(req.httpMethod, req.path, req.query, req.contentType, None, None, None, None);
      if req.contentType == JSON_TYPE {
        match req.body
        case EmptyBody =>
        case Unparseable =>
          return Fail(Crash("JSONDecodeError"));
        case Parsed(j) =>
          var data := j;
          if j.JObject? {
            var masked := MaskSecretKeys(j.entries);
            assert masked == MaskedEntries(j.entries);
            data := JObject(masked);
          } else {
            var masked := MaskBody(j);
            if masked.Err? {
              return Fail(masked.error);
            }
          }
          d := d.(requestBody := Some(DictConverter(JsonText(data))));
      } else if MULTIPART_TYPE <= req.contentType {
        if req.post != [] {
          d := d.(requestBody := Some(DictConverter(FormData(req.post))));
        }
        if req.files != [] {
          var infos := CollectFilesInfo(req.files);
          d := d.(requestFilesInfo := Some(infos));
        }
      } else if req.contentType == URLENCODED_TYPE {
        if req.post != [] {
          d := d.(requestBody := Some(DictConverter(FormData(req.post))));
        }
      }
      logDict := Some(d);
      return Pass;
    }

    /** `process_response`: without a `log_dict` nothing happens; otherwise the row is saved
        and both fields are cleared. */
    method ProcessResponse(req: HttpRequest, resp: HttpResponse) returns (r: Outcome)
      modifies this
      ensures old(logDict).None? ==> r == Pass && logDict.None? && startTime == old(startTime) && apiLogs == old(apiLogs)
      ensures old(logDict).Some? ==>
                var (o, d) := ResponseLog(old(logDict).value, resp);
                r == o
                && (o.Pass? ==> apiLogs == old(apiLogs) + [ApiLog(d, req.user)] && logDict.None? && startTime.None?)
                && (o.Fail? ==> apiLogs == old(apiLogs) && logDict == Some(d) && startTime == old(startTime))
    {
      if logDict.None? {
        return Pass;
      }
      var body := ResponseBody(resp, DictConverter);
      logDict := Some(logDict.value.(statusCode := Some(resp.status), responseBody := Some(body)));
      var masked := MaskResponseToken(body);
      if masked.Err? {
        return Fail(masked.error);
      }
      logDict := Some(logDict.value.(responseBody := Some(masked.value)));
      apiLogs := apiLogs + [ApiLog(logDict.value, req.user)];
      logDict := None;
      startTime := None;
      return Pass;
    }
  }

  /** The loop that appends one `{file_name, file_size}` entry per uploaded file. */
  method CollectFilesInfo(files: seq<UploadedFile>) returns (infos: seq<FileInfo>)
    ensures infos == FilesInfo(files)
  {
    infos := [];
    var i := 0;
    while i < |files|
      invariant 0 <= i <= |files|
      invariant |infos| == i
      invariant forall k :: 0 <= k < i ==> infos[k] == FileInfo(files[k].name, files[k].size)
    {
      infos := infos + [FileInfo(files[i].name, files[i].size)];
      i := i + 1;
    }
  }
}
