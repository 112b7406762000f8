/**
 * Redaction of error payloads before they are shown (`redactDeep` and the
 * token tests of apps/web/lib/errors/sanitize.ts).
 *
 * A string is replaced by "[REDACTED]" when it has the shape of a JWS
 * compact serialisation (three dot-separated base64url runs, section 7.1 of
 * RFC 7515) or of an Authorization value in the Bearer scheme (section 2.1
 * of RFC 6750). A property whose lower-cased name contains one of the
 * sensitive keywords is replaced whatever its value.
 */
module ErrorRedact {
  import opened JsString
  import opened JsValue

  const Redacted: string := "[REDACTED]"

  const SensitiveKeywords: seq<string> := [
    "token", "access_token", "refresh_token", "id_token", "jwt", "bearer",
    "authorization", "cookie", "set-cookie", "password", "passwd", "secret",
    "client_secret", "private_key", "apikey", "api-key", "credentials",
    "session", "sessionid", "csrf", "xsrf", "signature"
  ]

  /** The class `[A-Za-z0-9\-_]`. */
  predicate IsTokenChar(c: char) {
    ('A' <= c <= 'Z') || ('a' <= c <= 'z') || ('0' <= c <= '9') || c == '-' || c == '_'
  }

  /** `[A-Za-z0-9\-_]+` matching a whole string. */
  predicate TokenRun(s: string) {
    s != [] && forall i | 0 <= i < |s| :: IsTokenChar(s[i])
  }

  /** `looksLikeJwt`: the whole string is three token runs separated by dots. */
  predicate LooksLikeJwt(s: string) {
    var parts := Split(s, '.');
    |parts| == 3 && TokenRun(parts[0]) && TokenRun(parts[1]) && TokenRun(parts[2])
  }

  /** `looksLikeBearer`: "bearer" in any letter case, then at least one whitespace character. */
  predicate LooksLikeBearer(s: string) {
    |s| >= 7 &&
    LowerChar(s[0]) == 'b' && LowerChar(s[1]) == 'e' && LowerChar(s[2]) == 'a' &&
    LowerChar(s[3]) == 'r' && LowerChar(s[4]) == 'e' && LowerChar(s[5]) == 'r' &&
    IsSpace(s[6])
  }

  predicate LooksLikeToken(s: string) {
    LooksLikeJwt(s) || LooksLikeBearer(s)
  }

  /** `sensitiveKeywords.some((kw) => key.toLowerCase().includes(kw))`. */
  predicate IsSensitiveKey(key: string) {
    exists i | 0 <= i < |SensitiveKeywords| :: Contains(ToLower(key), SensitiveKeywords[i])
  }

  /** The value `redactDeep` stores under `key` for the original value `x`. */
  function RedactField(key: string, x: Value): Value
    decreases x, 3
  {
    if IsSensitiveKey(key) then Str(Redacted) else Redact(x)
  }

  /**
   * What `redactDeep` returns. An `Error` has no own enumerable properties,
   * so it becomes an empty plain object.
   */
  function Redact(v: Value): Value
    decreases v, 2
  {
    match v
    case Undefined => v
    case Null => v
    case Str(s) => if LooksLikeToken(s) then Str(Redacted) else v
    case Arr(items) => Arr(seq(|items|, i requires 0 <= i < |items| => Redact(items[i])))
    case Obj(_) => Obj(PutAll(RedactedPairs(v)))
    case ErrorObj(_, _, _) => Obj([])
    case Bool(_) => v
    case Num(_) => v
  }

  /** The assignments the `for…of` loop makes into the fresh `sanitized` object, in order. */
  function RedactedPairs(v: Value): (pairs: seq<(string, Value)>)
    requires v.Obj?
    ensures |pairs| == |v.entries|
    decreases v, 1
  {
    var e := v.entries;
    seq(|e|, i requires 0 <= i < |e| => (e[i].0, RedactField(e[i].0, e[i].1)))
  }

  /** `redactDeep(value)`. */
  method RedactDeep(value: Value) returns (r: Value)
    ensures r == Redact(value)
    decreases value
  {
    if value.Undefined? || value.Null? {
      return value;
    }
    if value.Str? && LooksLikeToken(value.s) {
      return Str(Redacted);
    }
    if value.Arr? {
      var items := value.items;
      var mapped: seq<Value> := [];
      for i := 0 to |items|
        invariant |mapped| == i
        invariant forall j | 0 <= j < i :: mapped[j] == Redact(items[j])
      {
        var item := RedactDeep(items[i]);
        mapped := mapped + [item];
      }
      return Arr(mapped);
    }
    if value.Obj? || value.ErrorObj? {
      if value.ErrorObj? {
        return Obj([]);
      }
      var sanitized: seq<(string, Value)> := [];
      for i := 0 to |value.entries|
        invariant sanitized == PutAll(RedactedPairs(value)[..i])
      {
        var (key, val) := value.entries[i];
        var field: Value;
        if IsSensitiveKey(key) {
          field := Str(Redacted);
        } else {
          field := RedactDeep(val);
        }
        assert RedactedPairs(value)[..i + 1][..i] == RedactedPairs(value)[..i];
        sanitized := Put(sanitized, key, field);
      }
      assert RedactedPairs(value)[..|value.entries|] == RedactedPairs(value);
      return Obj(sanitized);
    }
    return value;
  }

  // ---------------------------------------------------------------------------
  // Properties

  /** Token shapes that `redactDeep` recognises. */
  lemma JwtShape(a: string, b: string, c: string)
    requires TokenRun(a) && TokenRun(b) && TokenRun(c)
    ensures LooksLikeJwt(a + "." + b + "." + c)
  {
    assert '.' !in a && '.' !in b && '.' !in c by {
      assert !IsTokenChar('.');
    }
    var parts := [a, b, c];
    assert Join(parts[2..], '.') == c;
    assert Join(parts[1..], '.') == b + "." + c;
    assert Join(parts, '.') == a + "." + b + "." + c;
    SplitJoin(parts, '.');
  }

  /** A string that looks like a JWT is its three runs joined by dots. */
  lemma JwtParts(s: string)
    requires LooksLikeJwt(s)
    ensures var parts := Split(s, '.'); s == parts[0] + "." + parts[1] + "." + parts[2]
  {
    var parts := Split(s, '.');
    JoinSplit(s, '.');
    assert Join(parts[2..], '.') == parts[2];
    assert Join(parts[1..], '.') == parts[1] + "." + parts[2];
  }

  /** "bearer" followed by whitespace, in any letter case, is a bearer value. */
  lemma BearerShape(scheme: string, space: char, rest: string)
    requires |scheme| == 6 && ToLower(scheme) == "bearer" && IsSpace(space)
    ensures LooksLikeBearer(scheme + [space] + rest)
  {
    var s := scheme + [space] + rest;
    assert s[..6] == scheme;
    assert forall i | 0 <= i < 6 :: LowerChar(s[i]) == "bearer"[i];
  }

  /** The replacement text is itself neither a JWT nor a bearer value. */
  lemma RedactedIsNotToken()
    ensures !LooksLikeToken(Redacted)
  {
    SplitNone(Redacted, '.');
    assert Redacted[0] == '[';
  }

  /** `redactDeep` leaves null, undefined, booleans, numbers and non-token strings unchanged. */
  lemma RedactScalar(v: Value)
    requires v.Undefined? || v.Null? || v.Bool? || v.Num? || (v.Str? && !LooksLikeToken(v.s))
    ensures Redact(v) == v
  {
  }

  /** Token-shaped strings are replaced wherever they occur. */
  lemma RedactToken(s: string)
    requires LooksLikeToken(s)
    ensures Redact(Str(s)) == Str(Redacted)
  {
  }

  /** Arrays are mapped element-wise: same length, same order. */
  lemma RedactArray(v: Value)
    requires v.Arr?
    ensures Redact(v).Arr? && |Redact(v).items| == |v.items|
    ensures forall i | 0 <= i < |v.items| :: Redact(v).items[i] == Redact(v.items[i])
  {
  }

  /** Only `undefined` redacts to `undefined`. */
  lemma RedactUndefined(v: Value)
    ensures Redact(v).Undefined? <==> v.Undefined?
  {
  }

  /** The redacted object has exactly the keys of the original. */
  lemma RedactKeys(v: Value)
    requires v.Obj?
    ensures Redact(v).Obj?
    ensures forall k :: HasKey(Redact(v).entries, k) <==> HasKey(v.entries, k)
  {
    var pairs := RedactedPairs(v);
    PutAllKeys(pairs);
    assert Keys(pairs) == Keys(v.entries);
  }

  /**
   * For an object with distinct keys (every JavaScript object), the redacted
   * object has the same keys in the same order, and each value is
   * "[REDACTED]" when the key is sensitive and the redacted original otherwise.
   */
  lemma RedactObject(v: Value)
    requires v.Obj? && DistinctKeys(v.entries)
    ensures Redact(v).Obj? && |Redact(v).entries| == |v.entries|
    ensures forall i | 0 <= i < |v.entries| ::
      Redact(v).entries[i] == (v.entries[i].0, if IsSensitiveKey(v.entries[i].0) then Str(Redacted) else Redact(v.entries[i].1))
  {
    var pairs := RedactedPairs(v);
    assert Keys(pairs) == Keys(v.entries);
    assert DistinctKeys(pairs) by {
      forall i, j | 0 <= i < j < |pairs| ensures pairs[i].0 != pairs[j].0 {
        assert pairs[i].0 == v.entries[i].0 && pairs[j].0 == v.entries[j].0;
      }
    }
    PutAllDistinct(pairs);
    assert Redact(v) == Obj(pairs);
    forall i | 0 <= i < |v.entries|
      ensures pairs[i] == (v.entries[i].0, if IsSensitiveKey(v.entries[i].0) then Str(Redacted) else Redact(v.entries[i].1))
    {
      assert pairs[i] == (v.entries[i].0, RedactField(v.entries[i].0, v.entries[i].1));
    }
  }

  /**
   * The shape of everything `redactDeep` returns: no token-shaped string
   * anywhere, every sensitive key holds "[REDACTED]", object keys are
   * distinct, and no `Error` instance is left.
   */
  predicate Sanitized(v: Value) {
    match v
    case Str(s) => !LooksLikeToken(s)
    case Arr(items) => forall i | 0 <= i < |items| :: Sanitized(items[i])
    case Obj(e) =>
      DistinctKeys(e) &&
      forall i | 0 <= i < |e| :: Sanitized(e[i].1) && (IsSensitiveKey(e[i].0) ==> e[i].1 == Str(Redacted))
    case ErrorObj(_, _, _) => false
    case _ => true
  }

  /** Nothing `redactDeep` returns can leak a token or a sensitive field. */
  lemma {:induction false} RedactSanitizes(v: Value)
    ensures Sanitized(Redact(v))
  {
    match v
    case Str(s) =>
      RedactedIsNotToken();
    case Arr(items) =>
      var mapped := Redact(v).items;
      forall i | 0 <= i < |items| ensures Sanitized(mapped[i]) {
        assert mapped[i] == Redact(items[i]);
        RedactSanitizes(items[i]);
      }
    case Obj(entries) =>
      var pairs := RedactedPairs(v);
      var e := PutAll(pairs);
      assert Redact(v) == Obj(e);
      PutAllEntries(pairs);
      forall i | 0 <= i < |e| ensures Sanitized(e[i].1) && (IsSensitiveKey(e[i].0) ==> e[i].1 == Str(Redacted)) {
        var j :| 0 <= j < |pairs| && pairs[j] == e[i];
        assert pairs[j] == (entries[j].0, RedactField(entries[j].0, entries[j].1));
        if IsSensitiveKey(entries[j].0) {
          RedactedIsNotToken();
        } else {
          RedactSanitizes(entries[j].1);
        }
      }
    case _ =>
  }

  /** A sanitized value is left as it is. */
  lemma {:induction false} SanitizedFixed(v: Value)
    requires Sanitized(v)
    ensures Redact(v) == v
  {
    match v
    case Arr(items) =>
      var mapped := Redact(v).items;
      forall i | 0 <= i < |items| ensures mapped[i] == items[i] {
        assert mapped[i] == Redact(items[i]);
        SanitizedFixed(items[i]);
      }
      assert mapped == items;
    case Obj(entries) =>
      var pairs := RedactedPairs(v);
      forall i | 0 <= i < |entries| ensures pairs[i] == entries[i] {
        assert pairs[i] == (entries[i].0, RedactField(entries[i].0, entries[i].1));
        if !IsSensitiveKey(entries[i].0) {
          SanitizedFixed(entries[i].1);
        }
      }
      assert pairs == entries;
      PutAllDistinct(entries);
      assert Redact(v) == Obj(PutAll(pairs));
    case _ =>
  }

  /** Redacting twice is redacting once. */
  lemma RedactIdempotent(v: Value)
    ensures Redact(Redact(v)) == Redact(v)
  {
    RedactSanitizes(v);
    SanitizedFixed(Redact(v));
  }
}
