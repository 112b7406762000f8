/**
 * The part of `safeStringify` (apps/web/lib/errors/sanitize.ts) that runs
 * after serialisation: the length cap with its truncation marker, and the
 * fixed message returned when serialisation fails.
 */
module ErrorStringify {
  import opened Wrappers
  import opened JsString

  const MaxTechnicalDetailsLength: int := 12000

  /** A newline, the ellipsis character U+2026 and " (truncated)": 14 characters, all in the Basic Multilingual Plane. */
  const TruncationSuffix: string := "\n… (truncated)"

  const SerializationFailure: string := "Falha ao serializar os detalhes técnicos."

  /**
   * What `JSON.stringify` produced: a text; `undefined` (for `undefined`
   * itself or a function), on which reading `.length` throws; or an exception.
   */
  datatype Serialized = Text(text: string) | NoText | Threw

  /** `str.length > maxLength ? str.slice(0, maxLength) + suffix : str`. */
  function Truncated(s: string, maxLength: int): (r: string)
    ensures |s| <= maxLength ==> r == s
    ensures 0 <= maxLength < |s| ==> r == s[..maxLength] + TruncationSuffix
    ensures maxLength < 0 ==> r == s[..|s| + Max(maxLength, -|s|)] + TruncationSuffix
  {
    if |s| > maxLength then Slice(s, 0, maxLength) + TruncationSuffix else s
  }

  /** `safeStringify(value, { maxLength })` once `JSON.stringify` has run. */
  method SafeStringify(serialized: Serialized, maxLength: Option<int>) returns (out: string)
    ensures serialized.Text? ==> out == Truncated(serialized.text, maxLength.GetOr(MaxTechnicalDetailsLength))
    ensures !serialized.Text? ==> out == SerializationFailure
  {
    var limit := maxLength.GetOr(MaxTechnicalDetailsLength);
    if !serialized.Text? {
      return SerializationFailure;
    }
    var str := serialized.text;
    if |str| > limit {
      str := Slice(str, 0, limit) + TruncationSuffix;
    }
    return str;
  }

  /** With a non-negative cap the output is at most the cap plus the marker's 14 characters. */
  lemma TruncationBound(s: string, maxLength: int)
    requires maxLength >= 0
    ensures |Truncated(s, maxLength)| <= maxLength + |TruncationSuffix|
    ensures |TruncationSuffix| == 14
  {
  }

  /** The output always begins with the text itself, cut to the cap when it was longer. */
  lemma TruncationKeepsPrefix(s: string, maxLength: int)
    requires maxLength >= 0
    ensures StartsWith(Truncated(s, maxLength), s[..Min(maxLength, |s|)])
    ensures EndsWith(Truncated(s, maxLength), TruncationSuffix) || Truncated(s, maxLength) == s
  {
    var r := Truncated(s, maxLength);
    if |s| > maxLength {
      assert r[..maxLength] == s[..maxLength];
      assert r[|r| - |TruncationSuffix|..] == TruncationSuffix;
    }
  }

  /** With the default cap, a 13000-character text is cut to 12000 characters plus the marker. */
  lemma DefaultCap(s: string)
    requires |s| == 13000
    ensures |Truncated(s, MaxTechnicalDetailsLength)| == 12014
  {
  }
}
