/**
 * The error helpers of apps/web/lib/utils.ts: the API-error shape test and
 * the message shown to the user for an arbitrary caught value.
 */
module ErrorUtils {
  import opened Wrappers
  import opened JsValue

  /** `isApiError`: a non-null object that has an `error` property. */
  predicate IsApiError(v: Value) {
    IsObject(v) && In("error", v)
  }

  /** Of the values modelled here, only plain objects with an own `error` key have the API-error shape. */
  lemma ApiErrorShape(v: Value)
    ensures IsApiError(v) <==> v.Obj? && HasKey(v.entries, "error")
  {
  }

  /**
   * `getErrorMessage(error, fallback)`. The result is a `Value` because the
   * nested `message` of an API error is returned as found, whatever its type.
   */
  function GetErrorMessage(error: Value, fallback: string): (r: Value)
    ensures !Truthy(error) ==> r == Str(fallback)
    ensures error.ErrorObj? ==> r == Str(error.message)
    ensures !IsNullish(r)
    ensures r == Str(fallback) || (error.ErrorObj? && r == Str(error.message)) ||
      (IsApiError(error) && !IsNullish(Prop(error, "error")) && r == Prop(Prop(error, "error"), "message"))
  {
    if !Truthy(error) then Str(fallback)
    else if error.ErrorObj? then Str(error.message)
    else if IsApiError(error) then
      var inner := Prop(error, "error");
      if IsNullish(inner) then Str(fallback)
      else
        var message := Prop(inner, "message");
        if IsNullish(message) then Str(fallback) else message
    else Str(fallback)
  }

  /** Values that are neither errors nor API errors give the fallback. */
  lemma OtherValuesGiveFallback(error: Value, fallback: string)
    requires !error.ErrorObj? && !IsApiError(error)
    ensures GetErrorMessage(error, fallback) == Str(fallback)
  {
  }

  /** An API error whose `error` object carries a message string yields that message. */
  lemma ApiErrorMessage(code: string, message: string, fallback: string)
    ensures GetErrorMessage(Obj([("error", Obj([("code", Str(code)), ("message", Str(message))]))]), fallback) == Str(message)
  {
    var inner := Obj([("code", Str(code)), ("message", Str(message))]);
    var outer := Obj([("error", inner)]);
    assert Keys(outer.entries) == ["error"];
    assert Prop(outer, "error") == inner;
    assert inner.entries[0].0 != "message";
    assert Get(inner.entries, "message") == Get(inner.entries[1..], "message") == Some(Str(message));
  }
}
