/**
 * Breadcrumb resolution (apps/web/lib/navigation/breadcrumbs-registry.ts).
 *
 * A pathname is normalised, split into its non-empty segments and matched
 * against a fixed registry of patterns, in order; `:name` pattern segments
 * bind the path segment at the same position. A matched entry yields its
 * configured crumbs; an unmatched path yields a fallback trail built from
 * its segments.
 */
module BreadcrumbsRegistry {
  import opened Wrappers
  import opened JsString

  type Params = map<string, string>

  /** `BreadcrumbLabels`: names looked up for the project and file of the path. */
  datatype Labels = Labels(projectName: Option<string>, fileName: Option<string>)

  /** The label of a crumb definition: a string, or one of the registry's label functions. */
  datatype Label =
    | Text(text: string)
    | ProjectLabel   // labels?.projectName ?? `Projeto ${shortId(params.projectId)}`
    | FileLabel      // labels?.fileName ?? `Arquivo ${shortId(params.fileId)}`

  /** The href of a crumb definition: absent, a string, or the registry's href function. */
  datatype Href =
    | NoHref
    | Path(path: string)
    | ProjectFilesHref   // `/projects/${params.projectId}/files`

  datatype CrumbDefinition = CrumbDefinition(id: string, caption: Label, href: Href)

  datatype BreadcrumbConfig = BreadcrumbConfig(id: string, pattern: string, crumbs: seq<CrumbDefinition>)

  datatype BreadcrumbMatch = BreadcrumbMatch(config: BreadcrumbConfig, params: Params)

  datatype ResolvedBreadcrumb = ResolvedBreadcrumb(id: string, caption: string, href: Option<string>, isCurrent: bool)

  const HomeLabel: string := "Início"

  const Registry: seq<BreadcrumbConfig> := [
    BreadcrumbConfig("dashboard", "/dashboard", [
      CrumbDefinition("home", Text(HomeLabel), Path("/dashboard"))]),
    BreadcrumbConfig("projects", "/projects", [
      CrumbDefinition("home", Text(HomeLabel), Path("/dashboard")),
      CrumbDefinition("projects", Text("Projetos"), NoHref)]),
    BreadcrumbConfig("project-root", "/projects/:projectId", [
      CrumbDefinition("home", Text(HomeLabel), Path("/dashboard")),
      CrumbDefinition("projects", Text("Projetos"), Path("/projects")),
      CrumbDefinition("project", ProjectLabel, NoHref)]),
    BreadcrumbConfig("project-files", "/projects/:projectId/files", [
      CrumbDefinition("home", Text(HomeLabel), Path("/dashboard")),
      CrumbDefinition("projects", Text("Projetos"), Path("/projects")),
      CrumbDefinition("project", ProjectLabel, NoHref),
      CrumbDefinition("files", Text("Arquivos"), ProjectFilesHref)]),
    BreadcrumbConfig("file-detail", "/projects/:projectId/files/:fileId", [
      CrumbDefinition("home", Text(HomeLabel), Path("/dashboard")),
      CrumbDefinition("projects", Text("Projetos"), Path("/projects")),
      CrumbDefinition("project", ProjectLabel, ProjectFilesHref),
      CrumbDefinition("files", Text("Arquivos"), ProjectFilesHref),
      CrumbDefinition("file", FileLabel, NoHref)])
  ]

  // ---------------------------------------------------------------------------
  // Paths and segments

  /** `normalizePathname`: a leading "/" is added and one trailing "/" removed. */
  function NormalizePathname(pathname: string): (r: string)
    ensures r != [] && r[0] == '/'
  {
    if pathname == "" then "/"
    else
      var withLeadingSlash := if pathname[0] == '/' then pathname else ['/'] + pathname;
      if |withLeadingSlash| > 1 && withLeadingSlash[|withLeadingSlash| - 1] == '/' then
        withLeadingSlash[..|withLeadingSlash| - 1]
      else withLeadingSlash
  }

  /** `.filter(Boolean)` on a list of strings. */
  function NonEmpty(parts: seq<string>): (r: seq<string>)
    ensures forall k | 0 <= k < |r| :: r[k] != ""
    ensures |r| <= |parts|
  {
    if parts == [] then []
    else (if parts[0] == "" then [] else [parts[0]]) + NonEmpty(parts[1..])
  }

  /** `path.split("/").filter(Boolean)`. */
  function Segments(path: string): (r: seq<string>)
    ensures forall k | 0 <= k < |r| :: r[k] != "" && '/' !in r[k]
  {
    var parts := Split(path, '/');
    var r := NonEmpty(parts);
    NonEmptyIn(parts);
    r
  }

  lemma {:induction false} NonEmptyIn(parts: seq<string>)
    ensures forall k | 0 <= k < |NonEmpty(parts)| :: NonEmpty(parts)[k] in parts
  {
    if parts != [] { NonEmptyIn(parts[1..]); }
  }

  lemma {:induction false} NonEmptyAppend(a: seq<string>, b: seq<string>)
    ensures NonEmpty(a + b) == NonEmpty(a) + NonEmpty(b)
  {
    if a == [] {
      assert a + b == b;
    } else {
      assert (a + b)[0] == a[0] && (a + b)[1..] == a[1..] + b;
      NonEmptyAppend(a[1..], b);
    }
  }

  /** Normalising a path never changes its segments, so normalising twice is harmless. */
  lemma NormalizeKeepsSegments(pathname: string)
    ensures Segments(NormalizePathname(pathname)) == Segments(pathname)
  {
    if pathname == "" {
      assert NormalizePathname(pathname) == "" + ['/'] + "";
      SplitHead("", '/', "");
      SplitNone("", '/');
      assert NonEmpty(["", ""]) == [];
    } else {
      var w := if pathname[0] == '/' then pathname else ['/'] + pathname;
      if pathname[0] != '/' {
        SplitHead("", '/', pathname);
        NonEmptyAppend([""], Split(pathname, '/'));
      }
      assert Segments(w) == Segments(pathname);
      if |w| > 1 && w[|w| - 1] == '/' {
        var v := w[..|w| - 1];
        assert w == v + ['/'];
        SplitLast(v, '/');
        NonEmptyAppend(Split(v, '/'), [""]);
      }
    }
  }

  /** The empty path normalises to the root. */
  lemma NormalizeEmpty()
    ensures NormalizePathname("") == "/"
  {
  }

  /**
   * Exactly one trailing slash is removed, so normalisation is not idempotent:
   * "/projects//" becomes "/projects/", which becomes "/projects".
   */
  lemma NormalizeNotIdempotent()
    ensures NormalizePathname("/projects//") == "/projects/"
    ensures NormalizePathname(NormalizePathname("/projects//")) == "/projects"
  {
    var p := "/projects//";
    assert p[..|p| - 1] == "/projects/";
    var q := "/projects/";
    assert q[..|q| - 1] == "/projects";
  }

  // ---------------------------------------------------------------------------
  // Pattern matching

  predicate IsParam(part: string) {
    StartsWith(part, ":")
  }

  /** Same number of segments, and every literal pattern segment equals the path segment. */
  predicate SegmentsMatch(patternParts: seq<string>, pathParts: seq<string>) {
    |patternParts| == |pathParts| &&
    forall i | 0 <= i < |patternParts| :: IsParam(patternParts[i]) || patternParts[i] == pathParts[i]
  }

  /** The parameters bound by the first `n` segments, later bindings of a name overriding earlier ones. */
  function Bindings(patternParts: seq<string>, pathParts: seq<string>, n: nat): Params
    requires n <= |patternParts| == |pathParts|
  {
    if n == 0 then map[]
    else
      var params := Bindings(patternParts, pathParts, n - 1);
      if IsParam(patternParts[n - 1]) then params[patternParts[n - 1][1..] := pathParts[n - 1]]
      else params
  }

  /** What `matchPattern(pattern, pathname)` returns. */
  function PatternParams(pattern: string, pathname: string): Option<Params> {
    var patternParts := Segments(NormalizePathname(pattern));
    var pathParts := Segments(NormalizePathname(pathname));
    if SegmentsMatch(patternParts, pathParts) then
      Some(Bindings(patternParts, pathParts, |patternParts|))
    else None
  }

  /**
   * `matchPattern`. The source's test for an empty path segment at a `:name`
   * position is left out: the segments were filtered to non-empty ones.
   */
  method MatchPattern(pattern: string, pathname: string) returns (r: Option<Params>)
    ensures r.Some? <==> SegmentsMatch(Segments(pattern), Segments(pathname))
    ensures r == PatternParams(pattern, pathname)
  {
    var patternParts := Segments(NormalizePathname(pattern));
    var pathParts := Segments(NormalizePathname(pathname));
    PatternParamsOfParts(pattern, pathname, patternParts, pathParts);
    r := MatchSegments(patternParts, pathParts);
  }

  /** The loop of `matchPattern` over the pattern's and the path's segments. */
  method MatchSegments(patternParts: seq<string>, pathParts: seq<string>) returns (r: Option<Params>)
    ensures r.Some? <==> SegmentsMatch(patternParts, pathParts)
    ensures r.Some? ==> r.value == Bindings(patternParts, pathParts, |patternParts|)
  {
    if |patternParts| != |pathParts| {
      return None;
    }
    var params: Params := map[];
    for i := 0 to |patternParts|
      invariant forall j | 0 <= j < i :: IsParam(patternParts[j]) || patternParts[j] == pathParts[j]
      invariant params == Bindings(patternParts, pathParts, i)
    {
      var patternPart := patternParts[i];
      var pathPart := pathParts[i];
      if IsParam(patternPart) {
        params := params[patternPart[1..] := pathPart];
      } else if patternPart != pathPart {
        assert !SegmentsMatch(patternParts, pathParts);
        return None;
      }
    }
    assert SegmentsMatch(patternParts, pathParts);
    return Some(params);
  }

  /** `matchPattern`'s result read from the segments of the normalised pattern and path. */
  lemma PatternParamsOfParts(pattern: string, pathname: string, patternParts: seq<string>, pathParts: seq<string>)
    requires patternParts == Segments(NormalizePathname(pattern))
    requires pathParts == Segments(NormalizePathname(pathname))
    ensures patternParts == Segments(pattern) && pathParts == Segments(pathname)
    ensures PatternParams(pattern, pathname) ==
      if SegmentsMatch(patternParts, pathParts) then Some(Bindings(patternParts, pathParts, |patternParts|)) else None
  {
    NormalizeKeepsSegments(pattern);
    NormalizeKeepsSegments(pathname);
  }

  /** The bound names are exactly the `:name` segments of the pattern. */
  lemma {:induction false} BindingsKeys(patternParts: seq<string>, pathParts: seq<string>, n: nat, name: string)
    requires n <= |patternParts| == |pathParts|
    ensures name in Bindings(patternParts, pathParts, n) <==>
      exists i | 0 <= i < n :: IsParam(patternParts[i]) && patternParts[i][1..] == name
  {
    if n > 0 {
      BindingsKeys(patternParts, pathParts, n - 1, name);
    }
  }

  /** A `:name` segment binds the path segment at its position, unless a later segment rebinds the name. */
  lemma {:induction false} BindingsValue(patternParts: seq<string>, pathParts: seq<string>, n: nat, i: nat)
    requires n <= |patternParts| == |pathParts| && i < n
    requires IsParam(patternParts[i])
    requires forall j | i < j < n :: !(IsParam(patternParts[j]) && patternParts[j][1..] == patternParts[i][1..])
    ensures patternParts[i][1..] in Bindings(patternParts, pathParts, n)
    ensures Bindings(patternParts, pathParts, n)[patternParts[i][1..]] == pathParts[i]
  {
    if i < n - 1 {
      BindingsValue(patternParts, pathParts, n - 1, i);
    }
  }

  // ---------------------------------------------------------------------------
  // Registry lookup

  /** The first configuration, in order, whose pattern matches `pathname`. */
  function FirstMatch(configs: seq<BreadcrumbConfig>, pathname: string): Option<BreadcrumbMatch> {
    if configs == [] then None
    else
      match PatternParams(configs[0].pattern, pathname)
      case Some(params) => Some(BreadcrumbMatch(configs[0], params))
      case None => FirstMatch(configs[1..], pathname)
  }

  /** A match found is one of the configurations, with the parameters its pattern binds. */
  lemma {:induction false} FirstMatchSound(configs: seq<BreadcrumbConfig>, pathname: string)
    ensures var r := FirstMatch(configs, pathname);
      r.Some? ==> r.value.config in configs && PatternParams(r.value.config.pattern, pathname) == Some(r.value.params)
  {
    if configs != [] && PatternParams(configs[0].pattern, pathname).None? {
      FirstMatchSound(configs[1..], pathname);
    }
  }

  /** `FirstMatch` picks the earliest matching entry: nothing before it matches, and it is `None` only when nothing matches. */
  lemma {:induction false} FirstMatchIsFirst(configs: seq<BreadcrumbConfig>, pathname: string, k: nat)
    requires k < |configs|
    requires PatternParams(configs[k].pattern, pathname).Some?
    requires forall j | 0 <= j < k :: PatternParams(configs[j].pattern, pathname).None?
    ensures FirstMatch(configs, pathname) == Some(BreadcrumbMatch(configs[k], PatternParams(configs[k].pattern, pathname).value))
  {
    if k > 0 {
      var rest := configs[1..];
      assert PatternParams(configs[0].pattern, pathname).None?;
      assert FirstMatch(configs, pathname) == FirstMatch(rest, pathname);
      assert rest[k - 1] == configs[k];
      forall j | 0 <= j < k - 1 ensures PatternParams(rest[j].pattern, pathname).None? {
        assert rest[j] == configs[j + 1];
      }
      FirstMatchIsFirst(rest, pathname, k - 1);
    }
  }

  lemma {:induction false} FirstMatchNone(configs: seq<BreadcrumbConfig>, pathname: string)
    ensures FirstMatch(configs, pathname).None? <==>
      forall j | 0 <= j < |configs| :: PatternParams(configs[j].pattern, pathname).None?
  {
    if configs != [] {
      FirstMatchNone(configs[1..], pathname);
      assert forall j | 1 <= j < |configs| :: configs[j] == configs[1..][j - 1];
    }
  }

  /** `matchBreadcrumbConfig`: the registry is scanned in declaration order. */
  method MatchBreadcrumbConfig(pathname: string) returns (r: Option<BreadcrumbMatch>)
    ensures r == FirstMatch(Registry, NormalizePathname(pathname))
  {
    var normalized := NormalizePathname(pathname);
    for k := 0 to |Registry|
      invariant FirstMatch(Registry, normalized) == FirstMatch(Registry[k..], normalized)
    {
      var params := MatchPattern(Registry[k].pattern, normalized);
      FirstMatchStep(Registry, k, normalized);
      if params.Some? {
        return Some(BreadcrumbMatch(Registry[k], params.value));
      }
    }
    return None;
  }

  /** Scanning from entry `k`: entry `k` if it matches, otherwise the scan from `k + 1`. */
  lemma FirstMatchStep(configs: seq<BreadcrumbConfig>, k: nat, pathname: string)
    requires k < |configs|
    ensures FirstMatch(configs[k..], pathname) ==
      match PatternParams(configs[k].pattern, pathname)
      case Some(params) => Some(BreadcrumbMatch(configs[k], params))
      case None => FirstMatch(configs[k + 1..], pathname)
  {
    assert configs[k..][0] == configs[k] && configs[k..][1..] == configs[k + 1..];
  }

  // ---------------------------------------------------------------------------
  // Crumb construction

  /** `shortId`: identifiers longer than 12 characters are cut to their first 8. */
  function ShortId(value: string): (r: string)
    ensures |value| > 12 ==> r == value[..8]
    ensures |value| <= 12 ==> r == value
  {
    if value == "" then "" else if |value| > 12 then value[..8] else value
  }

  /** The characters of the class `[-_]`. */
  predicate IsDash(c: char) {
    c == '-' || c == '_'
  }

  /** `s.replace(/[-_]+/g, " ")`: every maximal run of dashes and underscores becomes one space. */
  function DashesToSpaces(s: string): (r: string)
    ensures '-' !in r && '_' !in r
    ensures |r| <= |s|
    ensures s != [] ==> r != []
    ensures ('-' !in s && '_' !in s) ==> r == s
  {
    if s == [] then []
    else if IsDash(s[0]) then [' '] + DashesToSpaces(DropDashes(s))
    else [s[0]] + DashesToSpaces(s[1..])
  }

  /** The text after its leading run of dashes and underscores. */
  function DropDashes(s: string): (r: string)
    ensures |r| < |s| || s == [] || !IsDash(s[0])
    ensures |r| <= |s| && r == s[|s| - |r|..]
    ensures forall i | 0 <= i < |s| - |r| :: IsDash(s[i])
    ensures r == [] || !IsDash(r[0])
    ensures '-' !in s && '_' !in s ==> r == s
  {
    if s != [] && IsDash(s[0]) then DropDashes(s[1..]) else s
  }

  /** `humanizeSegment`: long identifiers become "Item <first 8>", other segments are spaced and capitalised. */
  function HumanizeSegment(segment: string): (r: string)
    ensures |segment| > 12 ==> r == "Item " + segment[..8]
    ensures 0 < |segment| <= 12 ==> 0 < |r| <= |segment| && '-' !in r[1..] && '_' !in r[1..]
    ensures 0 < |segment| <= 12 ==>
      r == [UpperChar(DashesToSpaces(segment)[0])] + DashesToSpaces(segment)[1..]
  {
    if segment == "" then ""
    else
      var maybeId := ShortId(segment);
      if maybeId != segment then "Item " + maybeId
      else
        var withSpaces := DashesToSpaces(segment);
        [UpperChar(withSpaces[0])] + withSpaces[1..]
  }

  /** A segment without dashes or underscores only has its first letter capitalised. */
  lemma HumanizePlainSegment(segment: string)
    requires 0 < |segment| <= 12 && '-' !in segment && '_' !in segment
    ensures HumanizeSegment(segment) == [UpperChar(segment[0])] + segment[1..]
  {
  }

  // ---------------------------------------------------------------------------
  // Properties of DashesToSpaces

  lemma DashHead(s: string)
    requires s != [] && IsDash(s[0])
    ensures DashesToSpaces(s) == [' '] + DashesToSpaces(DropDashes(s))
  {
  }

  lemma NonDashHead(s: string)
    requires s != [] && !IsDash(s[0])
    ensures DashesToSpaces(s) == [s[0]] + DashesToSpaces(s[1..])
  {
  }

  /** Once the leading run ends inside `a`, whatever follows `a` is kept as it is. */
  lemma {:induction false} DropDashesAppend(a: string, b: string)
    requires DropDashes(a) != []
    ensures DropDashes(a + b) == DropDashes(a) + b
  {
    AppendHead(a, b);
    if IsDash(a[0]) { DropDashesAppend(a[1..], b); }
  }

  /** A leading run that covers all of `d` goes on into what follows. */
  lemma {:induction false} DropDashesAfterRun(d: string, x: string)
    requires forall i | 0 <= i < |d| :: IsDash(d[i])
    ensures DropDashes(d + x) == DropDashes(x)
  {
    if d != [] {
      AppendHead(d, x);
      DropDashesAfterRun(d[1..], x);
    } else {
      assert d + x == x;
    }
  }

  /** A run of dashes and underscores on its own becomes a single space. */
  lemma DashesOfRun(d: string)
    requires d != [] && forall i | 0 <= i < |d| :: IsDash(d[i])
    ensures DashesToSpaces(d) == " "
  {
    DashHead(d);
    assert DropDashes(d) == [];
  }

  /** A run of dashes and underscores in front of another character becomes one space. */
  lemma DashesAfterRun(d: string, b: string)
    requires d != [] && forall i | 0 <= i < |d| :: IsDash(d[i])
    requires b != [] && !IsDash(b[0])
    ensures DashesToSpaces(d + b) == [' '] + DashesToSpaces(b)
  {
    var db := d + b;
    AppendHead(d, b);
    DashHead(db);
    DropDashesAfterRun(d, b);
    assert DropDashes(b) == b;
  }

  /** Text that is empty or ends in another character is replaced apart from what follows it. */
  lemma {:induction false} DashesAppendAfterWord(a: string, b: string)
    requires a == [] || !IsDash(a[|a| - 1])
    ensures DashesToSpaces(a + b) == DashesToSpaces(a) + DashesToSpaces(b)
    decreases |a|
  {
    if a == [] {
      assert a + b == b;
    } else {
      var ab := a + b;
      AppendHead(a, b);
      if IsDash(a[0]) {
        var t := DropDashes(a);
        assert t != [];
        assert t[|t| - 1] == a[|a| - 1];
        DropDashesAppend(a, b);
        DashesAppendAfterWord(t, b);
        DashHead(ab);
        DashHead(a);
        JoinAssoc([' '], DashesToSpaces(t), DashesToSpaces(b));
      } else {
        DashesAppendAfterWord(a[1..], b);
        NonDashHead(ab);
        NonDashHead(a);
        JoinAssoc([a[0]], DashesToSpaces(a[1..]), DashesToSpaces(b));
      }
    }
  }

  /** Text is replaced apart from what follows it when that is empty or starts with another character. */
  lemma {:induction false} DashesAppendBeforeWord(a: string, b: string)
    requires b == [] || !IsDash(b[0])
    ensures DashesToSpaces(a + b) == DashesToSpaces(a) + DashesToSpaces(b)
    decreases |a|
  {
    if a == [] {
      assert a + b == b;
    } else if b == [] {
      assert a + b == a;
    } else {
      var ab := a + b;
      AppendHead(a, b);
      if IsDash(a[0]) {
        var t := DropDashes(a);
        if t == [] {
          DashesAfterRun(a, b);
          DashesOfRun(a);
        } else {
          DashHead(ab);
          DashHead(a);
          DropDashesAppend(a, b);
          DashesAppendBeforeWord(t, b);
          JoinAssoc([' '], DashesToSpaces(t), DashesToSpaces(b));
        }
      } else {
        DashesAppendBeforeWord(a[1..], b);
        NonDashHead(ab);
        NonDashHead(a);
        JoinAssoc([a[0]], DashesToSpaces(a[1..]), DashesToSpaces(b));
      }
    }
  }

  /** A maximal run of dashes and underscores, whatever its length, becomes exactly one space. */
  lemma DashRun(a: string, d: string, b: string)
    requires a == [] || !IsDash(a[|a| - 1])
    requires d != [] && forall i | 0 <= i < |d| :: IsDash(d[i])
    requires b == [] || !IsDash(b[0])
    ensures DashesToSpaces(a + d + b) == DashesToSpaces(a) + " " + DashesToSpaces(b)
  {
    var db := d + b;
    JoinAssoc(a, d, b);
    DashesAppendAfterWord(a, db);
    DashesAppendBeforeWord(d, b);
    DashesOfRun(d);
    JoinAssoc(DashesToSpaces(a), " ", DashesToSpaces(b));
  }

  /** Two words joined by a run of dashes or underscores become the words joined by one space. */
  lemma DashesOfTwoWords(a: string, d: string, b: string)
    requires '-' !in a && '_' !in a
    requires d != [] && forall i | 0 <= i < |d| :: IsDash(d[i])
    requires '-' !in b && '_' !in b
    ensures DashesToSpaces(a + d + b) == a + " " + b
  {
    assert a != [] ==> a[|a| - 1] in a;
    assert b != [] ==> b[0] in b;
    DashRun(a, d, b);
  }

  /** Two words joined by a run of dashes or underscores are humanized as the first, capitalised, a space and the second. */
  lemma HumanizeTwoWords(a: string, d: string, b: string)
    requires a != [] && '-' !in a && '_' !in a
    requires d != [] && forall i | 0 <= i < |d| :: IsDash(d[i])
    requires '-' !in b && '_' !in b
    requires |a + d + b| <= 12
    ensures HumanizeSegment(a + d + b) == [UpperChar(a[0])] + (a[1..] + (" " + b))
  {
    DashesOfTwoWords(a, d, b);
    JoinAssoc(a, " ", b);
    AppendHead(a, " " + b);
  }

  /** `humanizeSegment("novo-projeto")` is `"Novo projeto"`. */
  lemma HumanizeExample(segment: string)
    requires segment == "novo-projeto"
    ensures HumanizeSegment(segment) == "Novo projeto"
  {
    var a, d, b := "novo", "-", "projeto";
    assert segment == a + d + b;
    HumanizeTwoWords(a, d, b);
    HumanizedJoin();
  }

  lemma HumanizedJoin()
    ensures [UpperChar('n')] + ("ovo" + (" " + "projeto")) == "Novo projeto"
  {
  }

  function ParamText(params: Params, name: string): string {
    if name in params then params[name] else "undefined"
  }

  function ShortParam(params: Params, name: string): string {
    if name in params then ShortId(params[name]) else ""
  }

  function LabelText(l: Label, params: Params, labels: Option<Labels>): string {
    match l
    case Text(text) => text
    case ProjectLabel =>
      if labels.Some? && labels.value.projectName.Some? then labels.value.projectName.value
      else "Projeto " + ShortParam(params, "projectId")
    case FileLabel =>
      if labels.Some? && labels.value.fileName.Some? then labels.value.fileName.value
      else "Arquivo " + ShortParam(params, "fileId")
  }

  /** The href of a crumb that is not current; an empty string counts as no href. */
  function HrefText(href: Href, params: Params): Option<string> {
    match href
    case NoHref => None
    case Path(path) => if path == "" then None else Some(path)
    case ProjectFilesHref => Some("/projects/" + ParamText(params, "projectId") + "/files")
  }

  /** `resolveFromConfig`: one crumb per definition, the last one current and without a link. */
  function ResolveFromConfig(m: BreadcrumbMatch, labels: Option<Labels>): (r: seq<ResolvedBreadcrumb>)
    ensures |r| == |m.config.crumbs|
    ensures forall i | 0 <= i < |r| :: r[i].id == m.config.crumbs[i].id
    ensures forall i | 0 <= i < |r| :: r[i].isCurrent <==> i == |r| - 1
    ensures forall i | 0 <= i < |r| :: r[i].isCurrent ==> r[i].href.None?
  {
    var crumbs := m.config.crumbs;
    seq(|crumbs|, i requires 0 <= i < |crumbs| =>
      var isCurrent := i == |crumbs| - 1;
      ResolvedBreadcrumb(
        crumbs[i].id,
        LabelText(crumbs[i].caption, m.params, labels),
        if isCurrent then None else HrefText(crumbs[i].href, m.params),
        isCurrent))
  }

  /** The crumb `buildFallbackBreadcrumbs` pushes for segment `index`. */
  function SegmentCrumb(segments: seq<string>, index: nat): ResolvedBreadcrumb
    requires index < |segments|
  {
    var isLast := index == |segments| - 1;
    ResolvedBreadcrumb(
      NatToString(index) + "-" + segments[index],
      HumanizeSegment(segments[index]),
      if isLast then None else Some("/" + Join(segments[..index + 1], '/')),
      isLast)
  }

  const Home: ResolvedBreadcrumb := ResolvedBreadcrumb("home", HomeLabel, Some("/dashboard"), false)

  /** The fallback trail for a path: home, then one crumb per segment. */
  function FallbackTrail(pathname: string): (r: seq<ResolvedBreadcrumb>)
    ensures var segments := Segments(NormalizePathname(pathname));
      && |r| == |segments| + 1
      && r[0] == Home.(isCurrent := segments == [])
      && (forall i | 0 <= i < |segments| :: r[i + 1] == SegmentCrumb(segments, i))
  {
    var segments := Segments(NormalizePathname(pathname));
    [Home.(isCurrent := segments == [])] + seq(|segments|, i requires 0 <= i < |segments| => SegmentCrumb(segments, i))
  }

  /** `buildFallbackBreadcrumbs`: push a crumb for each segment. */
  method BuildFallbackBreadcrumbs(pathname: string) returns (crumbs: seq<ResolvedBreadcrumb>)
    ensures crumbs == FallbackTrail(pathname)
  {
    var normalized := NormalizePathname(pathname);
    var segments := Segments(normalized);
    crumbs := [Home.(isCurrent := |segments| == 0)];
    for index := 0 to |segments|
      invariant crumbs == FallbackTrail(pathname)[..index + 1]
    {
      FallbackStep(pathname, index);
      crumbs := crumbs + [SegmentCrumb(segments, index)];
    }
    assert FallbackTrail(pathname)[..|segments| + 1] == FallbackTrail(pathname);
  }

  /** Each segment's crumb extends the fallback trail's prefix by one. */
  lemma FallbackStep(pathname: string, n: nat)
    requires n < |Segments(NormalizePathname(pathname))|
    ensures var trail := FallbackTrail(pathname);
      trail[..n + 2] == trail[..n + 1] + [SegmentCrumb(Segments(NormalizePathname(pathname)), n)]
  {
    var trail := FallbackTrail(pathname);
    PrefixStep(trail, n + 1);
  }

  lemma PrefixStep<T>(s: seq<T>, k: nat)
    requires k < |s|
    ensures s[..k + 1] == s[..k] + [s[k]]
  {
  }

  /** A path made by joining non-empty, slash-free segments after a "/" has exactly those segments. */
  lemma SegmentsOfJoined(parts: seq<string>)
    requires |parts| >= 1 && forall k | 0 <= k < |parts| :: parts[k] != "" && '/' !in parts[k]
    ensures Segments("/" + Join(parts, '/')) == parts
  {
    var joined := Join(parts, '/');
    SplitJoin(parts, '/');
    SplitHead("", '/', joined);
    assert "/" + joined == "" + ['/'] + joined;
    NonEmptyAppend([""], parts);
    NonEmptyKeeps(parts);
  }

  /** Following the link of fallback crumb `i` leads to the path made of the first `i + 1` segments. */
  lemma FallbackHrefSegments(pathname: string, i: nat)
    requires i + 1 < |Segments(NormalizePathname(pathname))|
    ensures var segments := Segments(NormalizePathname(pathname));
      var href := FallbackTrail(pathname)[i + 1].href;
      href.Some? && Segments(href.value) == segments[..i + 1]
  {
    var segments := Segments(NormalizePathname(pathname));
    assert FallbackTrail(pathname)[i + 1] == SegmentCrumb(segments, i);
    SegmentsOfJoined(segments[..i + 1]);
  }

  lemma {:induction false} NonEmptyKeeps(parts: seq<string>)
    requires forall k | 0 <= k < |parts| :: parts[k] != ""
    ensures NonEmpty(parts) == parts
  {
    if parts != [] { NonEmptyKeeps(parts[1..]); }
  }

  /** What `resolveBreadcrumbs` returns; `given` is the caller's match, `None` when null or absent. */
  function Resolve(pathname: string, labels: Option<Labels>, given: Option<BreadcrumbMatch>): seq<ResolvedBreadcrumb> {
    var normalized := NormalizePathname(pathname);
    var m := if given.Some? then given else FirstMatch(Registry, NormalizePathname(normalized));
    if m.Some? then ResolveFromConfig(m.value, labels) else FallbackTrail(normalized)
  }

  /** `resolveBreadcrumbs`: the configured trail when a match is given or found, the fallback otherwise. */
  method ResolveBreadcrumbs(pathname: string, labels: Option<Labels>, given: Option<BreadcrumbMatch>)
    returns (r: seq<ResolvedBreadcrumb>)
    ensures r == Resolve(pathname, labels, given)
  {
    var normalized := NormalizePathname(pathname);
    var m := given;
    if m.None? {
      m := MatchBreadcrumbConfig(normalized);
    }
    if m.Some? {
      r := ResolveFromConfig(m.value, labels);
    } else {
      r := BuildFallbackBreadcrumbs(normalized);
    }
  }

  predicate WellShaped(r: seq<ResolvedBreadcrumb>) {
    |r| > 0 &&
    (forall i | 0 <= i < |r| :: r[i].isCurrent <==> i == |r| - 1) &&
    (r[|r| - 1].href.None? || r == [Home.(isCurrent := true)])
  }

  lemma FallbackShape(pathname: string)
    ensures WellShaped(FallbackTrail(pathname))
  {
    var segments := Segments(NormalizePathname(pathname));
    var r := FallbackTrail(pathname);
    forall i | 0 <= i < |r| ensures r[i].isCurrent <==> i == |r| - 1 {
      if i > 0 { assert r[i] == SegmentCrumb(segments, i - 1); }
    }
    if segments != [] {
      assert r[|r| - 1] == SegmentCrumb(segments, |segments| - 1);
    }
  }

  lemma RegistryCrumbsNonEmpty()
    ensures forall c | c in Registry :: |c.crumbs| > 0
  {
  }

  /**
   * Whatever the path, the trail the registry or the fallback produces is
   * non-empty and only its last crumb is current. The current crumb has no
   * link, except the home crumb when it is alone on a path with no segments.
   */
  lemma ResolvedTrailShape(pathname: string, labels: Option<Labels>)
    ensures WellShaped(Resolve(pathname, labels, None))
  {
    var normalized := NormalizePathname(pathname);
    var m := FirstMatch(Registry, NormalizePathname(normalized));
    if m.Some? {
      MatchedCrumbs(NormalizePathname(normalized));
      ConfiguredShape(m.value, labels);
    } else {
      FallbackShape(normalized);
    }
  }

  /** A registry entry found for a path has crumbs. */
  lemma MatchedCrumbs(path: string)
    requires FirstMatch(Registry, path).Some?
    ensures |FirstMatch(Registry, path).value.config.crumbs| > 0
  {
    FirstMatchSound(Registry, path);
    RegistryCrumbsNonEmpty();
  }

  /** A configured trail with at least one crumb is well shaped. */
  lemma ConfiguredShape(m: BreadcrumbMatch, labels: Option<Labels>)
    requires |m.config.crumbs| > 0
    ensures WellShaped(ResolveFromConfig(m, labels))
  {
  }
}
