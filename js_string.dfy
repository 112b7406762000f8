/**
 * The JavaScript string operations the application code relies on:
 * `trim`, `split`, `join`, `slice`, `indexOf`, `startsWith`/`endsWith`,
 * `includes`, ASCII case mapping and the `\s` character class.
 * Strings are `seq<char>`, sequences of Unicode scalar values; JavaScript
 * measures and indexes strings in UTF-16 code units, and the two agree on
 * text in the Basic Multilingual Plane.
 */
module JsString {

  /** The characters of the JavaScript class `\s`, which is also what `trim` removes. */
  predicate IsSpace(c: char) {
    var n := c as int;
    n == 0x09 || n == 0x0A || n == 0x0B || n == 0x0C || n == 0x0D || n == 0x20 ||
    n == 0xA0 || n == 0x1680 || (0x2000 <= n <= 0x200A) || n == 0x2028 ||
    n == 0x2029 || n == 0x202F || n == 0x205F || n == 0x3000 || n == 0xFEFF
  }

  predicate NoSpace(s: string) {
    forall i | 0 <= i < |s| :: !IsSpace(s[i])
  }

  /** `s.trimStart()`: the longest all-space prefix is removed. */
  function TrimStart(s: string): (r: string)
    ensures |r| <= |s| && r == s[|s| - |r|..]
    ensures forall i | 0 <= i < |s| - |r| :: IsSpace(s[i])
    ensures r == [] || !IsSpace(r[0])
  {
    if s != [] && IsSpace(s[0]) then TrimStart(s[1..]) else s
  }

  /** `s.trimEnd()`: the longest all-space suffix is removed. */
  function TrimEnd(s: string): (r: string)
    ensures |r| <= |s| && r == s[..|r|]
    ensures forall i | |r| <= i < |s| :: IsSpace(s[i])
    ensures r == [] || !IsSpace(r[|r| - 1])
  {
    if s != [] && IsSpace(s[|s| - 1]) then TrimEnd(s[..|s| - 1]) else s
  }

  /** `s.trim()`. */
  function Trim(s: string): (r: string)
    ensures |r| <= |s|
    ensures r == [] || (!IsSpace(r[0]) && !IsSpace(r[|r| - 1]))
    ensures s != [] && !IsSpace(s[0]) && !IsSpace(s[|s| - 1]) ==> r == s
    ensures NoSpace(s) ==> r == s
  {
    TrimEnd(TrimStart(s))
  }

  /** Leading whitespace in front of a non-space character is what `trimStart` removes. */
  lemma {:induction false} TrimStartPrefix(a: string, b: string)
    requires b != [] && !IsSpace(b[0])
    ensures TrimStart(a + b) == TrimStart(a) + b
  {
    if a != [] {
      assert (a + b)[0] == a[0] && (a + b)[1..] == a[1..] + b;
      if IsSpace(a[0]) { TrimStartPrefix(a[1..], b); }
    } else {
      assert a + b == b;
    }
  }

  /** Once `trimStart` stops inside `a`, whatever follows `a` is kept as it is. */
  lemma {:induction false} TrimStartAppend(a: string, b: string)
    requires TrimStart(a) != []
    ensures TrimStart(a + b) == TrimStart(a) + b
  {
    var ab := a + b;
    assert ab[0] == a[0];
    if IsSpace(a[0]) {
      assert ab[1..] == a[1..] + b;
      TrimStartAppend(a[1..], b);
    }
  }

  /** Whitespace in front of any text is removed by `trimStart`. */
  lemma {:induction false} TrimStartAfterSpaces(e: string, x: string)
    requires forall i | 0 <= i < |e| :: IsSpace(e[i])
    ensures TrimStart(e + x) == TrimStart(x)
  {
    if e != [] {
      var ex := e + x;
      assert ex[0] == e[0] && ex[1..] == e[1..] + x;
      TrimStartAfterSpaces(e[1..], x);
    } else {
      assert e + x == x;
    }
  }

  /** Whitespace after any text is removed by `trimEnd`. */
  lemma {:induction false} TrimEndBeforeSpaces(x: string, e: string)
    requires forall i | 0 <= i < |e| :: IsSpace(e[i])
    ensures TrimEnd(x + e) == TrimEnd(x)
  {
    if e != [] {
      var xe := x + e;
      assert xe[|xe| - 1] == e[|e| - 1] && xe[..|xe| - 1] == x + e[..|e| - 1];
      TrimEndBeforeSpaces(x, e[..|e| - 1]);
    } else {
      assert x + e == x;
    }
  }

  lemma AppendHead(a: string, b: string)
    requires a != []
    ensures (a + b)[0] == a[0] && (a + b)[1..] == a[1..] + b
  {
  }

  lemma JoinAssoc(x: string, y: string, z: string)
    ensures x + (y + z) == x + y + z
  {
  }

  /** Trailing whitespace after a non-space character is what `trimEnd` removes. */
  lemma {:induction false} TrimEndSuffix(a: string, b: string)
    requires a != [] && !IsSpace(a[|a| - 1])
    ensures TrimEnd(a + b) == a + TrimEnd(b)
  {
    if b != [] {
      assert (a + b)[|a + b| - 1] == b[|b| - 1] && (a + b)[..|a + b| - 1] == a + b[..|b| - 1];
      if IsSpace(b[|b| - 1]) { TrimEndSuffix(a, b[..|b| - 1]); }
    } else {
      assert a + b == a;
    }
  }

  /** Trimming either end first gives the same result. */
  lemma {:induction false} TrimCommutes(s: string)
    ensures TrimStart(TrimEnd(s)) == TrimEnd(TrimStart(s))
  {
    var t := TrimStart(s);
    if t == [] {
      AllSpaceTrimEnd(s);
    } else {
      var p := s[..|s| - |t|];
      SpacePrefixSplit(s, p, t);
      TrimEndAfterSpaces(p, t);
      TrimStartPrefix(p, TrimEnd(t));
      AllSpaceTrimStart(p);
    }
  }

  /** A text is its all-space prefix followed by the rest. */
  lemma SpacePrefixSplit(s: string, p: string, t: string)
    requires |t| <= |s| && t == s[|s| - |t|..] && p == s[..|s| - |t|]
    requires forall i | 0 <= i < |s| - |t| :: IsSpace(s[i])
    ensures s == p + t && forall i | 0 <= i < |p| :: IsSpace(p[i])
  {
    forall i | 0 <= i < |p| ensures IsSpace(p[i]) {
      assert p[i] == s[i];
    }
  }

  lemma {:induction false} TrimEndAfterSpaces(p: string, t: string)
    requires t != [] && !IsSpace(t[0])
    ensures TrimEnd(p + t) == p + TrimEnd(t)
    ensures TrimEnd(t) != [] && TrimEnd(t)[0] == t[0]
  {
    var head, tail := t[..1], t[1..];
    assert t == head + tail;
    assert p + t == (p + head) + tail;
    assert (p + head)[|p + head| - 1] == t[0];
    TrimEndSuffix(p + head, tail);
    TrimEndSuffix(head, tail);
    assert (p + head) + TrimEnd(tail) == p + (head + TrimEnd(tail));
  }

  lemma {:induction false} AllSpaceTrimEnd(s: string)
    requires forall i | 0 <= i < |s| :: IsSpace(s[i])
    ensures TrimEnd(s) == []
  {
    if s != [] { AllSpaceTrimEnd(s[..|s| - 1]); }
  }

  lemma {:induction false} AllSpaceTrimStart(s: string)
    requires forall i | 0 <= i < |s| :: IsSpace(s[i])
    ensures TrimStart(s) == []
  {
    if s != [] { AllSpaceTrimStart(s[1..]); }
  }

  lemma {:induction false} TrimStartTwice(s: string)
    ensures TrimStart(TrimStart(s)) == TrimStart(s)
  {
    var r := TrimStart(s);
    if r != [] { assert !IsSpace(r[0]); }
  }

  lemma {:induction false} TrimEndTwice(s: string)
    ensures TrimEnd(TrimEnd(s)) == TrimEnd(s)
  {
    var r := TrimEnd(s);
    if r != [] { assert !IsSpace(r[|r| - 1]); }
  }

  predicate StartsWith(s: string, prefix: string) {
    |prefix| <= |s| && s[..|prefix|] == prefix
  }

  predicate EndsWith(s: string, suffix: string) {
    |suffix| <= |s| && s[|s| - |suffix|..] == suffix
  }

  /** `s.includes(sub)`. */
  predicate Contains(s: string, sub: string) {
    StartsWith(s, sub) || (s != [] && Contains(s[1..], sub))
  }

  /** `s.indexOf(c)`: the first position of `c`, or -1. */
  function IndexOf(s: string, c: char): (i: int)
    ensures -1 <= i < |s|
    ensures i == -1 <==> c !in s
    ensures 0 <= i ==> s[i] == c && c !in s[..i]
  {
    if s == [] then -1
    else if s[0] == c then 0
    else
      var j := IndexOf(s[1..], c);
      if j < 0 then -1 else assert s[..j + 1] == [s[0]] + s[1..][..j]; j + 1
  }

  /** `parts.join([d])`. */
  function Join(parts: seq<string>, d: char): string {
    if parts == [] then ""
    else if |parts| == 1 then parts[0]
    else parts[0] + [d] + Join(parts[1..], d)
  }

  /** `s.split(d)` for a one-character separator. */
  function Split(s: string, d: char): (parts: seq<string>)
    ensures |parts| >= 1
    ensures forall k | 0 <= k < |parts| :: d !in parts[k]
  {
    if s == [] then [""]
    else
      var rest := Split(s[1..], d);
      if s[0] == d then [""] + rest
      else [[s[0]] + rest[0]] + rest[1..]
  }

  /** Joining the pieces of a split with the same separator gives back the string. */
  lemma {:induction false} JoinSplit(s: string, d: char)
    ensures Join(Split(s, d), d) == s
  {
    if s != [] {
      JoinSplit(s[1..], d);
      var rest := Split(s[1..], d);
      if s[0] != d {
        if |rest| > 1 {
          assert ([[s[0]] + rest[0]] + rest[1..])[1..] == rest[1..];
        }
      }
    }
  }

  /** Splitting at the first separator. */
  lemma {:induction false} SplitHead(a: string, d: char, b: string)
    requires d !in a
    ensures Split(a + [d] + b, d) == [a] + Split(b, d)
  {
    if a == [] {
      assert a + [d] + b == [d] + b;
    } else {
      SplitHead(a[1..], d, b);
      assert (a + [d] + b)[1..] == a[1..] + [d] + b;
      var rest := Split(a[1..] + [d] + b, d);
      assert rest[0] == a[1..] && rest[1..] == Split(b, d);
      assert [a[0]] + a[1..] == a;
    }
  }

  /** A separator-free string splits into itself alone. */
  lemma {:induction false} SplitNone(a: string, d: char)
    requires d !in a
    ensures Split(a, d) == [a]
  {
    if a != [] { SplitNone(a[1..], d); assert a == [a[0]] + a[1..]; }
  }

  /** A trailing separator adds one empty piece. */
  lemma {:induction false} SplitLast(s: string, d: char)
    ensures Split(s + [d], d) == Split(s, d) + [""]
  {
    if s == [] {
      assert s + [d] == [d];
    } else {
      SplitLast(s[1..], d);
      assert (s + [d])[1..] == s[1..] + [d];
    }
  }

  /** Splitting a join of separator-free pieces gives back the pieces. */
  lemma {:induction false} SplitJoin(parts: seq<string>, d: char)
    requires |parts| >= 1 && forall k | 0 <= k < |parts| :: d !in parts[k]
    ensures Split(Join(parts, d), d) == parts
  {
    if |parts| > 1 {
      SplitJoin(parts[1..], d);
      SplitHead(parts[0], d, Join(parts[1..], d));
    } else {
      SplitNone(parts[0], d);
    }
  }
  /** `s.slice(start, end)`, with JavaScript's treatment of negative and out-of-range bounds. */
  function Slice(s: string, start: int, end: int): (r: string)
    ensures |r| <= |s|
  {
    var from := if start < 0 then Max(|s| + start, 0) else Min(start, |s|);
    var to := if end < 0 then Max(|s| + end, 0) else Min(end, |s|);
    if from >= to then [] else s[from..to]
  }

  function Max(a: int, b: int): int { if a < b then b else a }
  function Min(a: int, b: int): int { if a < b then a else b }

  /** Lower-casing of one character, restricted to the ASCII letters. */
  function LowerChar(c: char): char {
    if 'A' <= c <= 'Z' then (c as int + 32) as char else c
  }

  /** Upper-casing of one character, restricted to the ASCII letters. */
  function UpperChar(c: char): char {
    if 'a' <= c <= 'z' then (c as int - 32) as char else c
  }

  function ToLower(s: string): (r: string)
    ensures |r| == |s| && forall i | 0 <= i < |s| :: r[i] == LowerChar(s[i])
  {
    seq(|s|, i requires 0 <= i < |s| => LowerChar(s[i]))
  }

  function ToUpper(s: string): (r: string)
    ensures |r| == |s| && forall i | 0 <= i < |s| :: r[i] == UpperChar(s[i])
  {
    seq(|s|, i requires 0 <= i < |s| => UpperChar(s[i]))
  }

  /** The decimal rendering of a natural number, as template literals print it. */
  function NatToString(n: nat): (r: string)
    ensures r != [] && forall i | 0 <= i < |r| :: '0' <= r[i] <= '9'
  {
    if n < 10 then [Digit(n)] else NatToString(n / 10) + [Digit(n % 10)]
  }

  function Digit(d: nat): (c: char)
    requires d < 10
    ensures '0' <= c <= '9'
  {
    ("0123456789")[d]
  }
}
