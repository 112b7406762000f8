/**
 * The `.env` reader of the health-check script (apps/web/scripts/healthcheck.ts,
 * `readEnvFile`): the file's text is split into lines, and every line of the
 * form `KEY=VALUE` sets `KEY`, the last such line winning. Reading the file
 * from disk is not modelled: the parser takes the file's contents.
 */
module EnvFile {
  import opened Wrappers
  import opened JsString
  import opened JsValue

  /** The variables read, in the order the keys were first set. */
  type Env = seq<(string, string)>

  /** `contents.split(/\r?\n/)`: split at each line feed, dropping a carriage return just before it. */
  function Lines(contents: string): (lines: seq<string>)
    ensures |lines| == |Split(contents, '\n')|
  {
    var pieces := Split(contents, '\n');
    seq(|pieces|, i requires 0 <= i < |pieces| =>
      if i < |pieces| - 1 && EndsWithChar(pieces[i], '\r') then pieces[i][..|pieces[i]| - 1] else pieces[i])
  }

  /** `s.startsWith(c)` for a one-character string `c`. */
  predicate StartsWithChar(s: string, c: char) {
    s != [] && s[0] == c
  }

  /** `s.endsWith(c)` for a one-character string `c`. */
  predicate EndsWithChar(s: string, c: char) {
    s != [] && s[|s| - 1] == c
  }

  /** Strips one pair of matching surrounding double or single quotes, as `value.slice(1, -1)`. */
  function Unquote(value: string): string {
    if (StartsWithChar(value, '"') && EndsWithChar(value, '"')) || (StartsWithChar(value, '\'') && EndsWithChar(value, '\''))
    then Slice(value, 1, -1)
    else value
  }

  /** The assignment one line makes, if any: blank lines, comments and lines without '=' make none. */
  function ParseLine(rawLine: string): Option<(string, string)> {
    var line := Trim(rawLine);
    if line == [] || StartsWithChar(line, '#') then None
    else
      var eqIndex := IndexOf(line, '=');
      if eqIndex == -1 then None
      else Some((Trim(line[..eqIndex]), Unquote(Trim(line[eqIndex + 1..]))))
  }

  /** The variables after the given lines, each assignment writing `env[key] = value`. */
  function EnvOf(lines: seq<string>): Env {
    if lines == [] then []
    else
      var env := EnvOf(lines[..|lines| - 1]);
      var assignment := ParseLine(lines[|lines| - 1]);
      if assignment.Some? then Put(env, assignment.value.0, assignment.value.1) else env
  }

  /** The line-parsing body of `readEnvFile`. */
  method ReadEnvFile(contents: string) returns (env: Env)
    ensures env == EnvOf(Lines(contents))
  {
    var lines := Lines(contents);
    env := [];
    for i := 0 to |lines|
      invariant env == EnvOf(lines[..i])
    {
      assert lines[..i + 1][..i] == lines[..i];
      var assignment := ParseEnvLine(lines[i]);
      if assignment.None? {
        continue;
      }
      var (key, value) := assignment.value;
      env := Put(env, key, value);
    }
    assert lines[..|lines|] == lines;
  }

  /** One turn of the loop in `readEnvFile`: the assignment a line makes, if any. */
  method ParseEnvLine(rawLine: string) returns (assignment: Option<(string, string)>)
    ensures assignment == ParseLine(rawLine)
  {
    var line := Trim(rawLine);
    if line == [] || StartsWithChar(line, '#') {
      return None;
    }
    var eqIndex := IndexOf(line, '=');
    if eqIndex == -1 {
      return None;
    }
    var key := Trim(line[..eqIndex]);
    var value := Trim(line[eqIndex + 1..]);
    if (StartsWithChar(value, '"') && EndsWithChar(value, '"')) || (StartsWithChar(value, '\'') && EndsWithChar(value, '\'')) {
      value := Slice(value, 1, -1);
    }
    assignment := Some((key, value));
  }

  /** The value the last assignment to `k` among the lines gives, if any. */
  function LastAssignment(lines: seq<string>, k: string): Option<string> {
    if lines == [] then None
    else
      var assignment := ParseLine(lines[|lines| - 1]);
      if assignment.Some? && assignment.value.0 == k then Some(assignment.value.1)
      else LastAssignment(lines[..|lines| - 1], k)
  }

  /** A repeated key keeps its last value, and each key appears once. */
  lemma {:induction false} LastAssignmentWins(lines: seq<string>, k: string)
    ensures Get(EnvOf(lines), k) == LastAssignment(lines, k)
    ensures DistinctKeys(EnvOf(lines))
  {
    if lines != [] {
      var before := lines[..|lines| - 1];
      LastAssignmentWins(before, k);
      var assignment := ParseLine(lines[|lines| - 1]);
      if assignment.Some? {
        PutGet(EnvOf(before), assignment.value.0, assignment.value.1, k);
        PutDistinct(EnvOf(before), assignment.value.0, assignment.value.1);
      }
    }
  }

  /** Blank lines, comment lines and lines without '=' set nothing. */
  lemma SkippedLines(rawLine: string)
    ensures Trim(rawLine) == [] ==> ParseLine(rawLine).None?
    ensures Trim(rawLine) != [] && Trim(rawLine)[0] == '#' ==> ParseLine(rawLine).None?
    ensures '=' !in Trim(rawLine) ==> ParseLine(rawLine).None?
  {
  }

  /**
   * A line `k=v` sets the trimmed `k` to the trimmed, unquoted `v`: the key
   * ends at the first '=', and the value may contain more of them.
   */
  lemma {:induction false} Assignment(k: string, v: string)
    requires '=' !in k
    requires TrimStart(k) == [] || TrimStart(k)[0] != '#'
    ensures ParseLine(k + "=" + v) == Some((Trim(k), Unquote(Trim(v))))
  {
    SplitAtFirstEquals(k, v);
    TrimmedPieces(k, v);
  }

  lemma {:induction false} SplitAtFirstEquals(k: string, v: string)
    requires '=' !in k
    requires TrimStart(k) == [] || TrimStart(k)[0] != '#'
    ensures ParseLine(k + "=" + v) == Some((Trim(TrimStart(k)), Unquote(Trim(TrimEnd(v)))))
  {
    var start, rest := TrimStart(k), TrimEnd(v);
    TrimLine(k, v);
    SuffixHasNo(k, start, '=');
    ParseOfShape(k + "=" + v, start, rest);
  }

  /** A line that trims to `start=rest`, with no '=' in `start` and no leading '#', assigns `start` to `rest`, both trimmed. */
  lemma ParseOfShape(rawLine: string, start: string, rest: string)
    requires Trim(rawLine) == start + ['='] + rest
    requires '=' !in start && (start == [] || start[0] != '#')
    ensures ParseLine(rawLine) == Some((Trim(start), Unquote(Trim(rest))))
  {
    LineShape(start, rest);
    ParseLineSplits(rawLine, start + ['='] + rest, |start|);
  }

  lemma TrimLine(k: string, v: string)
    ensures Trim(k + "=" + v) == TrimStart(k) + ['='] + TrimEnd(v)
  {
    assert k + "=" + v == k + ['='] + v;
    AssignmentTrimmed(k, '=', v);
  }

  /** In `start=rest` with no '=' in `start`, the first '=' follows `start`. */
  lemma LineShape(start: string, rest: string)
    requires '=' !in start && (start == [] || start[0] != '#')
    ensures var line := start + ['='] + rest;
      line != [] && !StartsWithChar(line, '#') && IndexOf(line, '=') == |start|
      && line[..|start|] == start && line[|start| + 1..] == rest
  {
    var line := start + ['='] + rest;
    if start == [] { assert line[0] == '='; } else { assert line[0] == start[0]; }
    FirstAt(start, '=', rest);
    Pieces(start, '=', rest);
  }

  lemma ParseLineSplits(rawLine: string, line: string, eqIndex: int)
    requires Trim(rawLine) == line && line != [] && !StartsWithChar(line, '#')
    requires IndexOf(line, '=') == eqIndex && eqIndex >= 0
    ensures ParseLine(rawLine) == Some((Trim(line[..eqIndex]), Unquote(Trim(line[eqIndex + 1..]))))
  {
  }

  lemma TrimmedPieces(k: string, v: string)
    ensures Trim(TrimStart(k)) == Trim(k) && Trim(TrimEnd(v)) == Trim(v)
  {
    TrimStartTwice(k);
    TrimCommutes(v);
    TrimEndTwice(TrimStart(v));
  }

  /** Trimming a line around a non-space separator trims the text before it at the start and the text after it at the end. */
  lemma AssignmentTrimmed(k: string, c: char, v: string)
    requires !IsSpace(c)
    ensures Trim(k + [c] + v) == TrimStart(k) + [c] + TrimEnd(v)
  {
    var tail := [c] + v;
    assert tail[0] == c;
    TrimStartPrefix(k, tail);
    ConcatAssoc(k, [c], v);
    var lead := TrimStart(k) + [c];
    ConcatAssoc(TrimStart(k), [c], v);
    assert lead[|lead| - 1] == c;
    TrimEndSuffix(lead, v);
  }

  lemma ConcatAssoc(a: string, b: string, c: string)
    ensures a + (b + c) == a + b + c
  {
  }

  lemma SuffixHasNo(k: string, start: string, c: char)
    requires c !in k && |start| <= |k| && start == k[|k| - |start|..]
    ensures c !in start
  {
    forall i | 0 <= i < |start| ensures start[i] != c { assert start[i] == k[|k| - |start| + i]; }
  }

  lemma FirstAt(a: string, c: char, b: string)
    requires c !in a
    ensures IndexOf(a + [c] + b, c) == |a|
  {
    var s := a + [c] + b;
    assert s[|a|] == c;
    assert s[..|a|] == a;
  }

  lemma Pieces(a: string, c: char, b: string)
    ensures (a + [c] + b)[..|a|] == a && (a + [c] + b)[|a| + 1..] == b
  {
  }

  /** Exactly one pair of matching quotes is removed. */
  lemma UnquoteMatching(x: string)
    ensures Unquote("\"" + x + "\"") == x
    ensures Unquote("'" + x + "'") == x
  {
    var d := "\"" + x + "\"";
    assert d[1..|d| - 1] == x;
    var q := "'" + x + "'";
    assert q[1..|q| - 1] == x;
  }

  /** Mismatched quotes are kept. */
  lemma UnquoteMismatched(x: string)
    ensures Unquote("\"" + x + "'") == "\"" + x + "'"
    ensures Unquote("'" + x + "\"") == "'" + x + "\""
  {
    var a := "\"" + x + "'";
    assert a[0] == '"' && a[|a| - 1] == '\'';
    var b := "'" + x + "\"";
    assert b[0] == '\'' && b[|b| - 1] == '"';
  }

  /** A lone quote character is stripped to the empty string. */
  lemma UnquoteLoneQuote()
    ensures Unquote("\"") == "" && Unquote("'") == ""
  {
  }

  /** Line ends may be "\n" or "\r\n": a carriage return before the line feed is not part of the line. */
  lemma CrLfLines(a: string, b: string)
    requires '\n' !in a
    ensures Lines(a + "\r\n" + b)[0] == a
  {
    assert a + "\r\n" + b == (a + "\r") + ['\n'] + b;
    SplitHead(a + "\r", '\n', b);
    assert |Split(b, '\n')| >= 1;
  }
}
