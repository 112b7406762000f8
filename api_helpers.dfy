/**
 * The helpers the API route handlers share (apps/web/lib/api-helpers.ts):
 * the JSON error response, and the session, same-origin, body and query
 * checks, each of which either passes a value on or yields the error
 * response to return.
 *
 * The calls into libraries become parameters: the session `auth()` found,
 * the body `req.json()` parsed (`None` when it throws), the origin or the
 * query entries `new URL(req.url)` gives (`None` when it throws), and the
 * zod schema's `safeParse`, which yields the parsed data or the flattened
 * issues.
 */
module ApiHelpers {
  import opened Wrappers
  import opened JsValue

  datatype ApiErrorCode =
    | Unauthorized
    | Forbidden
    | ValidationError
    | TeamNotFound
    | TeamAlreadyExists
    | ProjectNotFound
    | FileNotFound
    | RevisionConflict
    | InternalError

  /** The string each code is on the wire. */
  function CodeName(code: ApiErrorCode): string {
    match code
    case Unauthorized => "UNAUTHORIZED"
    case Forbidden => "FORBIDDEN"
    case ValidationError => "VALIDATION_ERROR"
    case TeamNotFound => "TEAM_NOT_FOUND"
    case TeamAlreadyExists => "TEAM_ALREADY_EXISTS"
    case ProjectNotFound => "PROJECT_NOT_FOUND"
    case FileNotFound => "FILE_NOT_FOUND"
    case RevisionConflict => "REVISION_CONFLICT"
    case InternalError => "INTERNAL_ERROR"
  }

  /** The code a wire string names, if any. */
  function CodeOfName(name: string): Option<ApiErrorCode> {
    if name == "UNAUTHORIZED" then Some(Unauthorized)
    else if name == "FORBIDDEN" then Some(Forbidden)
    else if name == "VALIDATION_ERROR" then Some(ValidationError)
    else if name == "TEAM_NOT_FOUND" then Some(TeamNotFound)
    else if name == "TEAM_ALREADY_EXISTS" then Some(TeamAlreadyExists)
    else if name == "PROJECT_NOT_FOUND" then Some(ProjectNotFound)
    else if name == "FILE_NOT_FOUND" then Some(FileNotFound)
    else if name == "REVISION_CONFLICT" then Some(RevisionConflict)
    else if name == "INTERNAL_ERROR" then Some(InternalError)
    else None
  }

  /** Each code's wire string names that code back, so no two codes share a string. */
  lemma CodeNamesRoundTrip(code: ApiErrorCode)
    ensures CodeOfName(CodeName(code)) == Some(code)
  {
  }

  /** An HTTP response with a JSON body. */
  datatype Response = Response(status: int, body: Value)

  /**
   * `jsonError(status, code, message, details)`: `{error: {code, message}}`,
   * with `details` added when supplied. A details object is truthy even when
   * empty; `None` is `undefined`.
   */
  function JsonError(status: int, code: ApiErrorCode, message: string, details: Option<seq<(string, Value)>>): Response {
    var base := [("code", Str(CodeName(code))), ("message", Str(message))];
    var withDetails := if details.Some? then base + [("details", Obj(details.value))] else base;
    Response(status, Obj([("error", Obj(withDetails))]))
  }

  /** The entries of the `error` object of a body shaped `{error: {...}}`. */
  function ErrorEntries(r: Response): Option<seq<(string, Value)>> {
    if r.body.Obj? && |r.body.entries| == 1 && r.body.entries[0].0 == "error" && r.body.entries[0].1.Obj? then
      Some(r.body.entries[0].1.entries)
    else None
  }

  /**
   * The error body carries the status, the code's string and the message,
   * and a `details` key exactly when details are supplied, holding them.
   */
  lemma JsonErrorShape(status: int, code: ApiErrorCode, message: string, details: Option<seq<(string, Value)>>)
    ensures JsonError(status, code, message, details).status == status
    ensures ErrorEntries(JsonError(status, code, message, details)).Some?
    ensures var e := ErrorEntries(JsonError(status, code, message, details)).value;
      && Get(e, "code") == Some(Str(CodeName(code)))
      && Get(e, "message") == Some(Str(message))
      && (HasKey(e, "details") <==> details.Some?)
      && (details.Some? ==> Get(e, "details") == Some(Obj(details.value)))
  {
    var e := ErrorEntries(JsonError(status, code, message, details)).value;
    assert e[0].0 == "code" && e[1].0 == "message";
    assert "code"[0] != "message"[0];
    if details.Some? {
      assert e[2].0 == "details";
      assert "details"[0] != "code"[0] && "details"[0] != "message"[0];
      assert DistinctKeys(e);
      GetAt(e, 0);
      GetAt(e, 1);
      GetAt(e, 2);
    } else {
      assert DistinctKeys(e);
      GetAt(e, 0);
      GetAt(e, 1);
      assert Keys(e) == ["code", "message"];
      assert "details" != "code" && "details" != "message";
    }
  }

  // ---------------------------------------------------------------------------
  // Session

  const AuthenticationRequired: Response := JsonError(401, Unauthorized, "Authentication required", None)

  /** `requireSession()`, given what `auth()` found. */
  function RequireSession<S>(session: Option<S>): Result<S, Response> {
    if session.None? then Err(AuthenticationRequired) else Ok(session.value)
  }

  /** The check fails with 401 exactly when there is no session, and passes the session on otherwise. */
  lemma SessionOutcome<S>(session: Option<S>)
    ensures RequireSession(session).Err? <==> session.None?
    ensures RequireSession(session).Err? ==>
      RequireSession(session).error.status == 401
      && RequireSession(session).error == JsonError(401, Unauthorized, "Authentication required", None)
    ensures session.Some? ==> RequireSession(session) == Ok(session.value)
  {
  }

  // ---------------------------------------------------------------------------
  // Same origin

  const InvalidOrigin: string := "Invalid origin"

  /**
   * `requireSameOrigin(req)`: `origin` is the `Origin` header (`None` when
   * absent), and `urlOrigin` the origin of the request URL (`None` when the
   * URL does not parse).
   */
  function RequireSameOrigin(origin: Option<string>, urlOrigin: Option<string>): Result<(), Response> {
    if origin.None? || origin.value == "" then Ok(())
    else if urlOrigin.None? then Err(JsonError(403, Forbidden, InvalidOrigin, None))
    else if origin.value != urlOrigin.value then
      Err(JsonError(403, Forbidden, InvalidOrigin, Some([("origin", Str(origin.value)), ("expectedOrigin", Str(urlOrigin.value))])))
    else Ok(())
  }

  /**
   * A request without an `Origin` header, or with an empty one, passes; one
   * with an `Origin` passes exactly when it equals the URL's origin, and
   * otherwise fails with 403, naming both origins unless the URL does not
   * parse.
   */
  lemma SameOriginOutcome(origin: Option<string>, urlOrigin: Option<string>)
    ensures origin.None? || origin.value == "" ==> RequireSameOrigin(origin, urlOrigin) == Ok(())
    ensures origin.Some? && origin.value != "" ==>
      (RequireSameOrigin(origin, urlOrigin).Ok? <==> urlOrigin == origin)
    ensures RequireSameOrigin(origin, urlOrigin).Err? ==>
      RequireSameOrigin(origin, urlOrigin).error.status == 403
    ensures origin.Some? && origin.value != "" && urlOrigin.None? ==>
      RequireSameOrigin(origin, urlOrigin) == Err(JsonError(403, Forbidden, InvalidOrigin, None))
    ensures origin.Some? && origin.value != "" && urlOrigin.Some? && urlOrigin != origin ==>
      RequireSameOrigin(origin, urlOrigin) ==
        Err(JsonError(403, Forbidden, InvalidOrigin, Some([("origin", Str(origin.value)), ("expectedOrigin", Str(urlOrigin.value))])))
  {
  }

  // ---------------------------------------------------------------------------
  // Body and query

  /**
   * `parseBody(req, schema)`: `json` is the parsed body (`None` when it is
   * not JSON) and `safeParse` the schema's check.
   */
  function ParseBody<T>(json: Option<Value>, safeParse: Value -> Result<T, Value>): Result<T, Response> {
    if json.None? then Err(JsonError(400, ValidationError, "Invalid JSON body", None))
    else
      var result := safeParse(json.value);
      if result.Err? then Err(JsonError(400, ValidationError, "Invalid request body", Some([("issues", result.error)])))
      else Ok(result.value)
  }

  /**
   * A body that is not JSON fails with "Invalid JSON body"; one the schema
   * rejects fails with "Invalid request body" and the issues; otherwise the
   * parsed data is passed on. Every failure is a 400 validation error.
   */
  lemma BodyOutcome<T>(json: Option<Value>, safeParse: Value -> Result<T, Value>)
    ensures json.None? ==> ParseBody(json, safeParse) == Err(JsonError(400, ValidationError, "Invalid JSON body", None))
    ensures json.Some? && safeParse(json.value).Err? ==>
      ParseBody(json, safeParse) == Err(JsonError(400, ValidationError, "Invalid request body", Some([("issues", safeParse(json.value).error)])))
    ensures ParseBody(json, safeParse).Ok? <==> json.Some? && safeParse(json.value).Ok?
    ensures ParseBody(json, safeParse).Ok? ==> ParseBody(json, safeParse).value == safeParse(json.value).value
    ensures ParseBody(json, safeParse).Err? ==>
      ParseBody(json, safeParse).error.status == 400
      && ErrorEntries(ParseBody(json, safeParse).error).Some?
      && Get(ErrorEntries(ParseBody(json, safeParse).error).value, "code") == Some(Str("VALIDATION_ERROR"))
  {
    if json.None? {
      JsonErrorShape(400, ValidationError, "Invalid JSON body", None);
    } else if safeParse(json.value).Err? {
      JsonErrorShape(400, ValidationError, "Invalid request body", Some([("issues", safeParse(json.value).error)]));
    }
  }

  const InvalidQueryParams: string := "Invalid query params"

  /** `Object.fromEntries(searchParams.entries())`: the parameters assigned in order, so a repeated name keeps its last value. */
  function QueryObject(params: seq<(string, string)>): (r: Value)
    ensures r.Obj?
  {
    Obj(PutAll(StrEntries(params)))
  }

  function StrEntries(params: seq<(string, string)>): (r: seq<(string, Value)>)
    ensures |r| == |params| && forall i | 0 <= i < |params| :: r[i] == (params[i].0, Str(params[i].1))
  {
    if params == [] then [] else [(params[0].0, Str(params[0].1))] + StrEntries(params[1..])
  }

  /**
   * `parseQuery(url, schema)`: `params` is the URL's query parameters in
   * order (`None` when the URL does not parse).
   */
  function ParseQuery<T>(params: Option<seq<(string, string)>>, safeParse: Value -> Result<T, Value>): Result<T, Response> {
    if params.None? then Err(JsonError(400, ValidationError, InvalidQueryParams, None))
    else
      var result := safeParse(QueryObject(params.value));
      if result.Err? then Err(JsonError(400, ValidationError, InvalidQueryParams, Some([("issues", result.error)])))
      else Ok(result.value)
  }

  /**
   * A URL that does not parse fails without details; a query the schema
   * rejects fails with the issues; otherwise the parsed data is passed on.
   * Both failures are 400 "Invalid query params".
   */
  lemma QueryOutcome<T>(params: Option<seq<(string, string)>>, safeParse: Value -> Result<T, Value>)
    ensures params.None? ==> ParseQuery(params, safeParse) == Err(JsonError(400, ValidationError, InvalidQueryParams, None))
    ensures params.Some? && safeParse(QueryObject(params.value)).Err? ==>
      ParseQuery(params, safeParse) ==
        Err(JsonError(400, ValidationError, InvalidQueryParams, Some([("issues", safeParse(QueryObject(params.value)).error)])))
    ensures ParseQuery(params, safeParse).Ok? <==> params.Some? && safeParse(QueryObject(params.value)).Ok?
    ensures ParseQuery(params, safeParse).Ok? ==> ParseQuery(params, safeParse).value == safeParse(QueryObject(params.value)).value
  {
  }

  /**
   * The object the schema sees has each parameter name once, and names that
   * are already distinct come through verbatim and in order.
   */
  lemma QueryObjectDistinct(params: seq<(string, string)>)
    ensures DistinctKeys(QueryObject(params).entries)
    ensures DistinctKeys(params) ==> QueryObject(params).entries == StrEntries(params)
  {
    var e := StrEntries(params);
    PutAllEntries(e);
    if DistinctKeys(params) {
      assert DistinctKeys(e);
      PutAllDistinct(e);
    }
  }

  /** Every property of the object the schema sees is one of the parameters, as given. */
  lemma QueryObjectEntries(params: seq<(string, string)>)
    ensures forall i | 0 <= i < |QueryObject(params).entries| ::
      exists j | 0 <= j < |params| :: QueryObject(params).entries[i] == (params[j].0, Str(params[j].1))
  {
    var e := StrEntries(params);
    PutAllEntries(e);
    forall i | 0 <= i < |PutAll(e)| ensures exists j | 0 <= j < |params| :: PutAll(e)[i] == (params[j].0, Str(params[j].1)) {
      assert PutAll(e)[i] in e;
      var j :| 0 <= j < |e| && e[j] == PutAll(e)[i];
      assert e[j] == (params[j].0, Str(params[j].1));
    }
  }

  /** Every parameter name, and only those, is a property of the object the schema sees. */
  lemma QueryObjectKeys(params: seq<(string, string)>)
    ensures forall k :: HasKey(QueryObject(params).entries, k) <==> exists i | 0 <= i < |params| :: params[i].0 == k
  {
    var e := StrEntries(params);
    PutAllKeys(e);
    forall k ensures HasKey(e, k) <==> exists i | 0 <= i < |params| :: params[i].0 == k {
      if HasKey(e, k) {
        var i :| 0 <= i < |e| && Keys(e)[i] == k;
        assert params[i].0 == k;
      }
      if exists i | 0 <= i < |params| :: params[i].0 == k {
        var i :| 0 <= i < |params| && params[i].0 == k;
        assert Keys(e)[i] == k;
      }
    }
  }
}
