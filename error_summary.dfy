/**
 * The error summaries of apps/web/lib/errors/sanitize.ts: request-id
 * extraction, `sanitizeErrorForSummary` (safe to show in production) and
 * `sanitizeErrorForVerboseDisplay` (debug mode only).
 *
 * A summary is a record assembled by successive assignments. Each method is
 * proved against a per-key reading (`SummaryField`, `VerboseField`) that
 * says, for every key, what the record holds under it.
 */
module ErrorSummary {
  import opened Wrappers
  import opened JsValue
  import opened ErrorUtils
  import opened ErrorRedact

  type Record = seq<(string, Value)>

  const RequestIdKeys: seq<string> := ["requestId", "traceId", "correlationId"]

  /** Every key a summary can hold. */
  const SummaryKeys: set<string> := {"name", "message", "cause", "code", "publicMessage", "status", "requestId"}

  /** The root fields the verbose display copies when the summary lacks them. */
  const AllowedFields: seq<string> := ["cause", "details"]

  // ---------------------------------------------------------------------------
  // Request id

  /** The first of `keys` whose property on `obj` is truthy. */
  function FirstTruthyProp(obj: Value, keys: seq<string>): (r: Option<Value>)
    requires !IsNullish(obj)
    ensures r.None? <==> forall j | 0 <= j < |keys| :: !Truthy(Prop(obj, keys[j]))
    ensures r.Some? ==> Truthy(r.value)
  {
    if keys == [] then None
    else if Truthy(Prop(obj, keys[0])) then Some(Prop(obj, keys[0]))
    else
      var r := FirstTruthyProp(obj, keys[1..]);
      assert forall j | 1 <= j < |keys| :: keys[j] == keys[1..][j - 1];
      r
  }

  /** The value found is the one under the first key whose property is truthy. */
  lemma {:induction false} FirstTruthyAt(obj: Value, keys: seq<string>, i: nat)
    requires !IsNullish(obj) && i < |keys|
    requires forall j | 0 <= j < i :: !Truthy(Prop(obj, keys[j]))
    requires Truthy(Prop(obj, keys[i]))
    ensures FirstTruthyProp(obj, keys) == Some(Prop(obj, keys[i]))
  {
    if i > 0 {
      assert !Truthy(Prop(obj, keys[0]));
      assert keys[1..][i - 1] == keys[i];
      forall j | 0 <= j < i - 1 ensures !Truthy(Prop(obj, keys[1..][j])) {
        assert keys[1..][j] == keys[j + 1];
      }
      FirstTruthyAt(obj, keys[1..], i - 1);
    }
  }

  /** What `extractRequestId` returns: a root id wins over one under `metadata`. */
  function RequestIdOf(v: Value): (r: Value)
    ensures r.Undefined? || Truthy(r)
  {
    if !Truthy(v) || !IsObject(v) then Undefined
    else
      match FirstTruthyProp(v, RequestIdKeys)
      case Some(id) => id
      case None =>
        var metadata := Prop(v, "metadata");
        if Truthy(metadata) && IsObject(metadata) then FirstTruthyProp(metadata, RequestIdKeys).GetOr(Undefined)
        else Undefined
  }

  /** `extractRequestId(value)`. */
  method ExtractRequestId(value: Value) returns (r: Value)
    ensures r == RequestIdOf(value)
  {
    if !Truthy(value) || !IsObject(value) {
      return Undefined;
    }
    for i := 0 to |RequestIdKeys|
      invariant forall j | 0 <= j < i :: !Truthy(Prop(value, RequestIdKeys[j]))
    {
      var id := Prop(value, RequestIdKeys[i]);
      if Truthy(id) {
        FirstTruthyAt(value, RequestIdKeys, i);
        return id;
      }
    }
    var metadata := Prop(value, "metadata");
    if Truthy(metadata) && IsObject(metadata) {
      for i := 0 to |RequestIdKeys|
        invariant forall j | 0 <= j < i :: !Truthy(Prop(metadata, RequestIdKeys[j]))
      {
        var id := Prop(metadata, RequestIdKeys[i]);
        if Truthy(id) {
          FirstTruthyAt(metadata, RequestIdKeys, i);
          return id;
        }
      }
    }
    return Undefined;
  }

  /** A truthy id at the root is returned whatever `metadata` holds. */
  lemma RootRequestIdWins(v: Value, i: nat)
    requires v.Obj? && i < |RequestIdKeys|
    requires forall j | 0 <= j < i :: !Truthy(Prop(v, RequestIdKeys[j]))
    requires Truthy(Prop(v, RequestIdKeys[i]))
    ensures RequestIdOf(v) == Prop(v, RequestIdKeys[i])
  {
    FirstTruthyAt(v, RequestIdKeys, i);
  }

  /** A truthy id is found under `metadata` only when no root key holds one. */
  lemma MetadataRequestId(v: Value, i: nat)
    requires v.Obj? && i < |RequestIdKeys|
    requires forall j | 0 <= j < |RequestIdKeys| :: !Truthy(Prop(v, RequestIdKeys[j]))
    requires IsObject(Prop(v, "metadata"))
    requires forall j | 0 <= j < i :: !Truthy(Prop(Prop(v, "metadata"), RequestIdKeys[j]))
    requires Truthy(Prop(Prop(v, "metadata"), RequestIdKeys[i]))
    ensures RequestIdOf(v) == Prop(Prop(v, "metadata"), RequestIdKeys[i])
  {
    FirstTruthyAt(Prop(v, "metadata"), RequestIdKeys, i);
  }

  // ---------------------------------------------------------------------------
  // The API error core and the `in` test on it

  /** `getApiErrorCore`: the `error` field of an API error, `null` when absent or not an API error. */
  function ApiCore(v: Value): (r: Value)
    ensures !r.Undefined?
    ensures !IsApiError(v) ==> r.Null?
  {
    if !IsApiError(v) then Null
    else
      var e := Prop(v, "error");
      if IsNullish(e) then Null else e
  }

  /** The outcome of evaluating an expression that may throw. */
  datatype Outcome<T> = Returned(value: T) | Threw

  /**
   * `k in apiErr && apiErr[k] !== undefined` AS WRITTEN: the `in` operator
   * throws a TypeError when its right operand is not an object, and nothing
   * guards against a primitive `error` field.
   */
  function FieldProbeAsWritten(k: string, apiErr: Value): (r: Outcome<bool>)
    ensures r.Threw? <==> !IsObject(apiErr)
  {
    if !IsObject(apiErr) then Threw
    else Returned(In(k, apiErr) && !Prop(apiErr, k).Undefined?)
  }

  /** The same test guarded by `typeof apiErr === "object"`, as used by the model below. */
  predicate HasField(apiErr: Value, k: string) {
    IsObject(apiErr) && In(k, apiErr) && !Prop(apiErr, k).Undefined?
  }

  /** The guard changes nothing where the unguarded test returns. */
  lemma HasFieldAgrees(k: string, apiErr: Value)
    ensures FieldProbeAsWritten(k, apiErr).Returned? ==> FieldProbeAsWritten(k, apiErr).value == HasField(apiErr, k)
    ensures !IsObject(apiErr) ==> !HasField(apiErr, k)
  {
  }

  /**
   * `{ error: "boom" }` is an API error whose core is truthy, so line 143 is
   * reached, and there the `in` test throws.
   */
  lemma PrimitiveCoreThrows()
    ensures var v := Obj([("error", Str("boom"))]);
      IsApiError(v) && Truthy(ApiCore(v)) && FieldProbeAsWritten("publicMessage", ApiCore(v)).Threw?
  {
    var v := Obj([("error", Str("boom"))]);
    assert Keys(v.entries) == ["error"];
    assert Prop(v, "error") == Str("boom");
  }

  // ---------------------------------------------------------------------------
  // Summary

  /** What `sanitizeErrorForSummary(v)` holds under key `k`, if anything. */
  function SummaryField(v: Value, k: string): (r: Option<Value>)
    ensures k !in SummaryKeys ==> r.None?
  {
    if !Truthy(v) then None
    else if v.Str? then (if k == "message" then Some(v) else None)
    else
      var api := ApiCore(v);
      if k == "name" then
        (if v.ErrorObj? then Some(Str(v.name)) else None)
      else if k == "message" then
        (if Truthy(api) && Truthy(Prop(api, "message")) then Some(Prop(api, "message"))
         else if v.ErrorObj? then Some(Str(v.message))
         else None)
      else if k == "cause" then
        (if v.ErrorObj? && !v.cause.Undefined? then Some(Redact(v.cause)) else None)
      else if k == "code" then
        (if Truthy(api) && Truthy(Prop(api, "code")) then Some(Prop(api, "code")) else None)
      else if k == "publicMessage" then
        (if Truthy(api) && HasField(api, "publicMessage") then Some(Redact(Prop(api, "publicMessage")))
         else if IsObject(v) && !Prop(v, "publicMessage").Undefined? then Some(Redact(Prop(v, "publicMessage")))
         else None)
      else if k == "status" then
        (if IsObject(v) && !Prop(v, "status").Undefined? then Some(Redact(Prop(v, "status"))) else None)
      else if k == "requestId" then
        (if Truthy(RequestIdOf(v)) then Some(RequestIdOf(v)) else None)
      else None
  }

  /** `if (present) o[k] = x`. */
  function PutOpt(e: Record, k: string, x: Option<Value>): Record {
    if x.Some? then Put(e, k, x.value) else e
  }

  lemma PutOptReads(e: Record, key: string, x: Option<Value>, k: string)
    ensures Get(PutOpt(e, key, x), k) == if k == key && x.Some? then x else Get(e, k)
  {
    if x.Some? {
      PutGet(e, key, x.value, k);
    }
  }

  lemma PutOptDistinct(e: Record, key: string, x: Option<Value>)
    requires DistinctKeys(e)
    ensures DistinctKeys(PutOpt(e, key, x))
  {
    if x.Some? {
      PutDistinct(e, key, x.value);
    }
  }

  /** `x` when `c` holds. */
  function When(c: bool, x: Value): Option<Value> {
    if c then Some(x) else None
  }

  /** The record after the `instanceof Error` block. */
  function ErrorFields(v: Value): Record {
    if v.ErrorObj? then
      PutOpt(Put(Put([], "name", Str(v.name)), "message", Str(v.message)), "cause", When(!v.cause.Undefined?, Redact(v.cause)))
    else []
  }

  /** The record `e` after the block on the API error core. */
  function ApiFields(v: Value, e: Record): Record {
    var api := ApiCore(v);
    if !Truthy(api) then e
    else
      var withCode := PutOpt(e, "code", When(Truthy(Prop(api, "code")), Prop(api, "code")));
      var withMessage := PutOpt(withCode, "message", When(Truthy(Prop(api, "message")), Prop(api, "message")));
      PutOpt(withMessage, "publicMessage", When(HasField(api, "publicMessage"), Redact(Prop(api, "publicMessage"))))
  }

  /** The record `e` after the block on the root object's `status` and `publicMessage`. */
  function RootFields(v: Value, e: Record): Record {
    if !IsObject(v) then e
    else
      var withStatus := PutOpt(e, "status", When(!Prop(v, "status").Undefined?, Redact(Prop(v, "status"))));
      var publicMessage := Prop(v, "publicMessage");
      PutOpt(withStatus, "publicMessage",
        When(!publicMessage.Undefined? && Get(withStatus, "publicMessage").GetOr(Undefined).Undefined?, Redact(publicMessage)))
  }

  /** The record `sanitizeErrorForSummary` assembles for a truthy non-string value. */
  function SummaryRecord(v: Value): Record {
    PutOpt(RootFields(v, ApiFields(v, ErrorFields(v))), "requestId", When(Truthy(RequestIdOf(v)), RequestIdOf(v)))
  }

  lemma ErrorFieldsReads(v: Value, k: string)
    ensures DistinctKeys(ErrorFields(v))
    ensures Get(ErrorFields(v), k) ==
      if !v.ErrorObj? then None
      else if k == "name" then Some(Str(v.name))
      else if k == "message" then Some(Str(v.message))
      else if k == "cause" then When(!v.cause.Undefined?, Redact(v.cause))
      else None
  {
    if v.ErrorObj? {
      var e1 := Put([], "name", Str(v.name));
      var e2 := Put(e1, "message", Str(v.message));
      PutGet([], "name", Str(v.name), k);
      PutGet(e1, "message", Str(v.message), k);
      PutOptReads(e2, "cause", When(!v.cause.Undefined?, Redact(v.cause)), k);
      PutDistinct(e1, "message", Str(v.message));
      PutOptDistinct(e2, "cause", When(!v.cause.Undefined?, Redact(v.cause)));
    }
  }

  lemma ApiFieldsReads(v: Value, e: Record, k: string)
    requires DistinctKeys(e)
    ensures DistinctKeys(ApiFields(v, e))
    ensures var api := ApiCore(v);
      Get(ApiFields(v, e), k) ==
        if Truthy(api) && k == "publicMessage" && HasField(api, k) then Some(Redact(Prop(api, k)))
        else if Truthy(api) && (k == "code" || k == "message") && Truthy(Prop(api, k)) then Some(Prop(api, k))
        else Get(e, k)
  {
    var api := ApiCore(v);
    if Truthy(api) {
      var withCode := PutOpt(e, "code", When(Truthy(Prop(api, "code")), Prop(api, "code")));
      var withMessage := PutOpt(withCode, "message", When(Truthy(Prop(api, "message")), Prop(api, "message")));
      PutOptReads(e, "code", When(Truthy(Prop(api, "code")), Prop(api, "code")), k);
      PutOptReads(withCode, "message", When(Truthy(Prop(api, "message")), Prop(api, "message")), k);
      PutOptReads(withMessage, "publicMessage", When(HasField(api, "publicMessage"), Redact(Prop(api, "publicMessage"))), k);
      PutOptDistinct(e, "code", When(Truthy(Prop(api, "code")), Prop(api, "code")));
      PutOptDistinct(withCode, "message", When(Truthy(Prop(api, "message")), Prop(api, "message")));
      PutOptDistinct(withMessage, "publicMessage", When(HasField(api, "publicMessage"), Redact(Prop(api, "publicMessage"))));
    }
  }

  lemma RootFieldsReads(v: Value, e: Record, k: string)
    requires DistinctKeys(e)
    ensures DistinctKeys(RootFields(v, e))
    ensures Get(RootFields(v, e), k) ==
      if IsObject(v) && k == "status" && !Prop(v, k).Undefined? then Some(Redact(Prop(v, k)))
      else if IsObject(v) && k == "publicMessage" && !Prop(v, k).Undefined? && Get(e, k).GetOr(Undefined).Undefined? then
        Some(Redact(Prop(v, k)))
      else Get(e, k)
  {
    if IsObject(v) {
      var withStatus := PutOpt(e, "status", When(!Prop(v, "status").Undefined?, Redact(Prop(v, "status"))));
      var publicMessage := Prop(v, "publicMessage");
      var x := When(!publicMessage.Undefined? && Get(withStatus, "publicMessage").GetOr(Undefined).Undefined?, Redact(publicMessage));
      PutOptReads(e, "status", When(!Prop(v, "status").Undefined?, Redact(Prop(v, "status"))), k);
      PutOptReads(e, "status", When(!Prop(v, "status").Undefined?, Redact(Prop(v, "status"))), "publicMessage");
      PutOptReads(withStatus, "publicMessage", x, k);
      PutOptDistinct(e, "status", When(!Prop(v, "status").Undefined?, Redact(Prop(v, "status"))));
      PutOptDistinct(withStatus, "publicMessage", x);
    }
  }

  /** The assembled record holds, under every key, what `SummaryField` says. */
  lemma SummaryRecordReads(v: Value, k: string)
    requires Truthy(v) && !v.Str?
    ensures DistinctKeys(SummaryRecord(v))
    ensures Get(SummaryRecord(v), k) == SummaryField(v, k)
  {
    var e1 := ErrorFields(v);
    ErrorFieldsReads(v, k);
    ErrorFieldsReads(v, "publicMessage");
    var e2 := ApiFields(v, e1);
    ApiFieldsReads(v, e1, k);
    ApiFieldsReads(v, e1, "publicMessage");
    var e3 := RootFields(v, e2);
    RootFieldsReads(v, e2, k);
    PutOptReads(e3, "requestId", When(Truthy(RequestIdOf(v)), RequestIdOf(v)), k);
    PutOptDistinct(e3, "requestId", When(Truthy(RequestIdOf(v)), RequestIdOf(v)));
    var api := ApiCore(v);
    if Truthy(api) && HasField(api, "publicMessage") {
      RedactUndefined(Prop(api, "publicMessage"));
    }
  }

  /** The `instanceof Error` block, writing into a fresh `sanitized`. */
  method CopyErrorFields(value: Value) returns (sanitized: Record)
    ensures sanitized == ErrorFields(value)
  {
    sanitized := [];
    if value.ErrorObj? {
      sanitized := Put(sanitized, "name", Str(value.name));
      sanitized := Put(sanitized, "message", Str(value.message));
      if !value.cause.Undefined? {
        var cause := RedactDeep(value.cause);
        sanitized := Put(sanitized, "cause", cause);
      }
    }
  }

  /** The block on the API error core (with the `typeof` guard before `in`). */
  method CopyApiFields(value: Value, sanitized: Record) returns (r: Record)
    ensures r == ApiFields(value, sanitized)
  {
    r := sanitized;
    var apiErr := ApiCore(value);
    if Truthy(apiErr) {
      var code := Prop(apiErr, "code");
      if Truthy(code) {
        r := Put(r, "code", code);
      }
      var message := Prop(apiErr, "message");
      if Truthy(message) {
        r := Put(r, "message", message);
      }
      if HasField(apiErr, "publicMessage") {
        var publicMessage := RedactDeep(Prop(apiErr, "publicMessage"));
        r := Put(r, "publicMessage", publicMessage);
      }
    }
  }

  /** The block on the root object's `status` and `publicMessage`. */
  method CopyRootFields(value: Value, sanitized: Record) returns (r: Record)
    ensures r == RootFields(value, sanitized)
  {
    r := sanitized;
    if IsObject(value) {
      var status := Prop(value, "status");
      if !status.Undefined? {
        var redacted := RedactDeep(status);
        r := Put(r, "status", redacted);
      }
      var publicMessage := Prop(value, "publicMessage");
      if !publicMessage.Undefined? && Get(r, "publicMessage").GetOr(Undefined).Undefined? {
        var redacted := RedactDeep(publicMessage);
        r := Put(r, "publicMessage", redacted);
      }
    }
  }

  /** `sanitizeErrorForSummary(value)`; `None` is `null`. */
  method SanitizeErrorForSummary(value: Value) returns (r: Option<Record>)
    ensures !Truthy(value) ==> r.None?
    ensures value.Str? && Truthy(value) ==> r == Some([("message", value)])
    ensures r.Some? ==> DistinctKeys(r.value) && forall k :: Get(r.value, k) == SummaryField(value, k)
    ensures r.None? <==> forall k | k in SummaryKeys :: SummaryField(value, k).None?
    ensures r == if BaseRecord(value) == [] then None else Some(BaseRecord(value))
  {
    if !Truthy(value) {
      return None;
    }
    if value.Str? {
      assert Get([("message", value)], "message") == Some(value);
      return Some([("message", value)]);
    }
    var sanitized := CopyErrorFields(value);
    sanitized := CopyApiFields(value, sanitized);
    sanitized := CopyRootFields(value, sanitized);
    var requestId := ExtractRequestId(value);
    if Truthy(requestId) {
      sanitized := Put(sanitized, "requestId", requestId);
    }
    assert sanitized == SummaryRecord(value);
    forall k ensures Get(sanitized, k) == SummaryField(value, k) {
      SummaryRecordReads(value, k);
    }
    SummaryRecordEmpty(value);
    if sanitized == [] {
      return None;
    }
    return Some(sanitized);
  }

  /** The record is empty exactly when no key has a value: `null` is returned only then. */
  lemma SummaryRecordEmpty(v: Value)
    requires Truthy(v) && !v.Str?
    ensures DistinctKeys(SummaryRecord(v))
    ensures SummaryRecord(v) == [] <==> forall k | k in SummaryKeys :: SummaryField(v, k).None?
  {
    var e := SummaryRecord(v);
    SummaryRecordReads(v, "name");
    if e == [] {
      forall k | k in SummaryKeys ensures SummaryField(v, k).None? {
        SummaryRecordReads(v, k);
      }
    } else {
      var first := e[0].0;
      assert Keys(e)[0] == first;
      SummaryRecordReads(v, first);
    }
  }

  /** A summary never carries the raw `error` wrapper, `details` or any key outside the seven listed. */
  lemma SummaryKeysOnly(v: Value, k: string)
    requires k !in SummaryKeys
    ensures SummaryField(v, k).None?
  {
  }

  /** The values copied from the error's `cause`, `publicMessage` and `status` are redacted. */
  lemma SummaryRedacted(v: Value, k: string)
    requires k == "cause" || k == "publicMessage" || k == "status"
    requires SummaryField(v, k).Some?
    ensures Sanitized(SummaryField(v, k).value)
  {
    var x :| SummaryField(v, k) == Some(Redact(x));
    RedactSanitizes(x);
  }

  /** For an `Error`, the summary holds its name and message (no API error can override them). */
  lemma ErrorSummary(name: string, message: string, cause: Value)
    ensures SummaryField(ErrorObj(name, message, cause), "name") == Some(Str(name))
    ensures SummaryField(ErrorObj(name, message, cause), "message") == Some(Str(message))
    ensures SummaryField(ErrorObj(name, message, cause), "cause") ==
      if cause.Undefined? then None else Some(Redact(cause))
  {
  }

  /**
   * With the guard, `{ error: "boom" }` no longer throws: its summary holds
   * nothing, so the result is `null`.
   */
  lemma PrimitiveCoreSummary()
    ensures forall k :: SummaryField(Obj([("error", Str("boom"))]), k).None?
  {
    var v := Obj([("error", Str("boom"))]);
    assert Keys(v.entries) == ["error"];
    assert Prop(v, "error") == Str("boom");
    assert !Prop(v, "status").Undefined? ==> false by {
      assert Get(v.entries, "status") == None;
    }
    assert Get(v.entries, "publicMessage") == None;
    assert Get(v.entries, "requestId") == None && Get(v.entries, "traceId") == None;
    assert Get(v.entries, "correlationId") == None && Get(v.entries, "metadata") == None;
    assert RequestIdOf(v) == Undefined;
  }

  // ---------------------------------------------------------------------------
  // Verbose display

  /** What the verbose record holds under `k` before the allowed root fields are copied. */
  function BeforeRootFields(v: Value, k: string): Option<Value> {
    var api := ApiCore(v);
    if k == "details" && Truthy(api) && HasField(api, "details") then Some(Redact(Prop(api, "details")))
    else SummaryField(v, k)
  }

  /** What `sanitizeErrorForVerboseDisplay(v)` holds under key `k`, if anything. */
  function VerboseField(v: Value, k: string): (r: Option<Value>)
    ensures k !in SummaryKeys && k != "details" ==> r.None?
  {
    if k in AllowedFields && IsObject(v) && BeforeRootFields(v, k).GetOr(Undefined).Undefined? && !Prop(v, k).Undefined? then
      Some(Redact(Prop(v, k)))
    else BeforeRootFields(v, k)
  }

  /** The record `sanitizeErrorForSummary(v) ?? {}` starts from. */
  function BaseRecord(v: Value): Record {
    if !Truthy(v) then [] else if v.Str? then [("message", v)] else SummaryRecord(v)
  }

  lemma BaseRecordReads(v: Value, k: string)
    ensures DistinctKeys(BaseRecord(v))
    ensures Get(BaseRecord(v), k) == SummaryField(v, k)
  {
    if Truthy(v) && !v.Str? {
      SummaryRecordReads(v, k);
    }
  }

  /** The record `e` after the API error's `details` are added. */
  function DetailsField(v: Value, e: Record): Record {
    var api := ApiCore(v);
    if Truthy(api) && HasField(api, "details") then Put(e, "details", Redact(Prop(api, "details"))) else e
  }

  /** One round of the loop over the allowed root fields. */
  function CopyField(v: Value, e: Record, field: string): Record
    requires !IsNullish(v)
  {
    PutOpt(e, field, When(!Prop(v, field).Undefined? && Get(e, field).GetOr(Undefined).Undefined?, Redact(Prop(v, field))))
  }

  /** The loop over `fields`, in order. */
  function CopyFields(v: Value, e: Record, fields: seq<string>): Record
    requires !IsNullish(v)
  {
    if fields == [] then e else CopyField(v, CopyFields(v, e, fields[..|fields| - 1]), fields[|fields| - 1])
  }

  /** The record `sanitizeErrorForVerboseDisplay` assembles. */
  function VerboseRecord(v: Value): Record {
    var base := DetailsField(v, BaseRecord(v));
    if IsObject(v) then CopyFields(v, base, AllowedFields) else base
  }

  lemma CopyFieldReads(v: Value, e: Record, field: string, k: string)
    requires !IsNullish(v) && DistinctKeys(e)
    ensures DistinctKeys(CopyField(v, e, field))
    ensures Get(CopyField(v, e, field), k) ==
      if k == field && !Prop(v, k).Undefined? && Get(e, k).GetOr(Undefined).Undefined? then Some(Redact(Prop(v, k)))
      else Get(e, k)
  {
    var x := When(!Prop(v, field).Undefined? && Get(e, field).GetOr(Undefined).Undefined?, Redact(Prop(v, field)));
    PutOptReads(e, field, x, k);
    PutOptDistinct(e, field, x);
  }

  /** Each allowed field is copied, redacted, when the root has it and the record does not. */
  lemma CopyAllowedReads(v: Value, e: Record, k: string)
    requires IsObject(v) && DistinctKeys(e)
    ensures DistinctKeys(CopyFields(v, e, AllowedFields))
    ensures Get(CopyFields(v, e, AllowedFields), k) ==
      if k in AllowedFields && !Prop(v, k).Undefined? && Get(e, k).GetOr(Undefined).Undefined? then Some(Redact(Prop(v, k)))
      else Get(e, k)
  {
    assert AllowedFields[..|AllowedFields| - 1] == ["cause"] && ["cause"][..0] == [];
    var withCause := CopyField(v, e, "cause");
    assert CopyFields(v, e, ["cause"]) == withCause;
    assert CopyFields(v, e, AllowedFields) == CopyField(v, withCause, "details");
    CopyFieldReads(v, e, "cause", k);
    CopyFieldReads(v, e, "cause", "details");
    CopyFieldReads(v, withCause, "details", k);
  }

  /** The assembled verbose record holds, under every key, what `VerboseField` says. */
  lemma VerboseRecordReads(v: Value, k: string)
    ensures DistinctKeys(VerboseRecord(v))
    ensures Get(VerboseRecord(v), k) == VerboseField(v, k)
  {
    var base := BaseRecord(v);
    BaseRecordReads(v, k);
    var api := ApiCore(v);
    var x := if Truthy(api) && HasField(api, "details") then Some(Redact(Prop(api, "details"))) else None;
    var withDetails := DetailsField(v, base);
    assert withDetails == PutOpt(base, "details", x);
    PutOptReads(base, "details", x, k);
    PutOptDistinct(base, "details", x);
    assert Get(withDetails, k) == BeforeRootFields(v, k);
    if IsObject(v) {
      CopyAllowedReads(v, withDetails, k);
    }
  }

  /** The loop over the allowed root fields. */
  method CopyAllowedFields(value: Value, base: Record) returns (r: Record)
    requires IsObject(value)
    ensures r == CopyFields(value, base, AllowedFields)
  {
    r := base;
    for i := 0 to |AllowedFields|
      invariant r == CopyFields(value, base, AllowedFields[..i])
    {
      var field := AllowedFields[i];
      var x := Prop(value, field);
      if !x.Undefined? && Get(r, field).GetOr(Undefined).Undefined? {
        var redacted := RedactDeep(x);
        r := Put(r, field, redacted);
      }
      assert AllowedFields[..i + 1][..i] == AllowedFields[..i];
    }
    assert AllowedFields[..|AllowedFields|] == AllowedFields;
  }

  /** `sanitizeErrorForVerboseDisplay(value)`; `None` is `null`. */
  method SanitizeErrorForVerboseDisplay(value: Value) returns (r: Option<Record>)
    ensures r.Some? ==> DistinctKeys(r.value) && forall k :: Get(r.value, k) == VerboseField(value, k)
    ensures r.Some? ==> !HasKey(r.value, "error")
    ensures r.None? <==> forall k | k in SummaryKeys || k == "details" :: VerboseField(value, k).None?
  {
    var summary := SanitizeErrorForSummary(value);
    var base := summary.GetOr([]);
    assert base == BaseRecord(value);
    var apiErr := ApiCore(value);
    if Truthy(apiErr) && HasField(apiErr, "details") {
      var details := RedactDeep(Prop(apiErr, "details"));
      base := Put(base, "details", details);
    }
    assert base == DetailsField(value, BaseRecord(value));
    if IsObject(value) {
      base := CopyAllowedFields(value, base);
    }
    assert base == VerboseRecord(value);
    forall k ensures Get(base, k) == VerboseField(value, k) {
      VerboseRecordReads(value, k);
    }
    VerboseRecordEmpty(value);
    if base == [] {
      return None;
    }
    return Some(base);
  }

  /** The verbose record never has an `error` key, and is empty exactly when no key has a value. */
  lemma VerboseRecordEmpty(v: Value)
    ensures DistinctKeys(VerboseRecord(v))
    ensures !HasKey(VerboseRecord(v), "error")
    ensures VerboseRecord(v) == [] <==> forall k | k in SummaryKeys || k == "details" :: VerboseField(v, k).None?
  {
    var e := VerboseRecord(v);
    VerboseRecordReads(v, "error");
    if e == [] {
      forall k | k in SummaryKeys || k == "details" ensures VerboseField(v, k).None? {
        VerboseRecordReads(v, k);
      }
    } else {
      var first := e[0].0;
      assert Keys(e)[0] == first;
      VerboseRecordReads(v, first);
    }
  }

  /** The verbose record agrees with the summary on every key except `cause` and `details`. */
  lemma VerboseExtendsSummary(v: Value, k: string)
    requires k != "cause" && k != "details"
    ensures VerboseField(v, k) == SummaryField(v, k)
  {
  }

  /** A `cause` in the summary is kept; otherwise the root `cause` is copied, redacted. */
  lemma VerboseCause(v: Value)
    ensures SummaryField(v, "cause").Some? ==> VerboseField(v, "cause") == SummaryField(v, "cause")
    ensures SummaryField(v, "cause").None? && IsObject(v) && !Prop(v, "cause").Undefined? ==>
      VerboseField(v, "cause") == Some(Redact(Prop(v, "cause")))
  {
    if SummaryField(v, "cause").Some? {
      RedactUndefined(v.cause);
    }
  }

  /** `details` comes from the API error when it has them, else from the root, and is always redacted. */
  lemma VerboseDetailsRedacted(v: Value)
    requires VerboseField(v, "details").Some?
    ensures Sanitized(VerboseField(v, "details").value)
  {
    var api := ApiCore(v);
    if Truthy(api) && HasField(api, "details") {
      assert VerboseField(v, "details") == Some(Redact(Prop(api, "details")));
      RedactSanitizes(Prop(api, "details"));
    } else {
      DetailsNotInSummary(v);
      assert "details" in AllowedFields;
      assert VerboseField(v, "details") == Some(Redact(Prop(v, "details")));
      RedactSanitizes(Prop(v, "details"));
    }
  }

  lemma DetailsNotInSummary(v: Value)
    ensures SummaryField(v, "details").None?
  {
    assert "details" !in SummaryKeys by {
      assert |"details"| == 7;
      assert "details"[0] == 'd';
    }
  }

  /** The summary of an API error `{ error: { code, message, debug } }` takes its code and message. */
  lemma ApiErrorSummary(code: string, message: string, debug: Value)
    requires code != "" && message != ""
    ensures var v := Obj([("error", Obj([("code", Str(code)), ("message", Str(message)), ("debug", debug)]))]);
      SummaryField(v, "code") == Some(Str(code)) && SummaryField(v, "message") == Some(Str(message))
  {
    var inner := Obj([("code", Str(code)), ("message", Str(message)), ("debug", debug)]);
    var v := Obj([("error", inner)]);
    assert Keys(v.entries) == ["error"];
    assert Prop(v, "error") == inner;
    assert ApiCore(v) == inner;
    assert Prop(inner, "code") == Str(code);
    assert Get(inner.entries, "message") == Get(inner.entries[1..], "message") == Some(Str(message));
  }

  /**
   * The verbose display of such an error shows the code and message;
   * neither the `error` wrapper nor the inner `debug` field appears.
   */
  lemma ApiErrorVerbose(code: string, message: string, debug: Value)
    requires code != "" && message != ""
    ensures var v := Obj([("error", Obj([("code", Str(code)), ("message", Str(message)), ("debug", debug)]))]);
      VerboseField(v, "code") == Some(Str(code)) &&
      VerboseField(v, "message") == Some(Str(message)) &&
      VerboseField(v, "error").None? && VerboseField(v, "debug").None?
  {
    var v := Obj([("error", Obj([("code", Str(code)), ("message", Str(message)), ("debug", debug)]))]);
    ApiErrorSummary(code, message, debug);
    VerboseExtendsSummary(v, "code");
    VerboseExtendsSummary(v, "message");
  }
}
