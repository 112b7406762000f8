/**
 * Request payload validation (apps/web/lib/validators.ts): the UUID check and
 * the four zod object schemas for creating teams, projects and files and for
 * updating a file's schema.
 *
 * A schema parse gives either the cleaned-up payload or the list of issues
 * zod reports, each with its path and message. Parsing follows zod 3: every
 * field is checked and its issues collected; a value of the wrong type stops
 * that field, and an object-level refinement runs only when no field had the
 * wrong type.
 */
module Validators {
  import opened Wrappers
  import opened JsString
  import opened JsValue
  import Text

  // ---------------------------------------------------------------------------
  // UUID_REGEX / isUuid

  /** `[0-9a-f]` under the regex's `i` flag. */
  predicate IsHexDigit(c: char) {
    '0' <= c <= '9' || 'a' <= LowerChar(c) <= 'f'
  }

  /** The version nibble `[1-5]` (section 4.1.3 of RFC 4122). */
  predicate IsVersionDigit(c: char) {
    '1' <= c <= '5'
  }

  /** The variant nibble `[89ab]` under the `i` flag (section 4.1.1 of RFC 4122). */
  predicate IsVariantDigit(c: char) {
    var l := LowerChar(c);
    l == '8' || l == '9' || l == 'a' || l == 'b'
  }

  predicate IsHyphenAt(i: int) {
    i == 8 || i == 13 || i == 18 || i == 23
  }

  /** `isUuid(value)`: the regex read position by position. */
  predicate IsUuid(s: string) {
    |s| == 36
    && (forall i | 0 <= i < |s| :: if IsHyphenAt(i) then s[i] == '-' else IsHexDigit(s[i]))
    && IsVersionDigit(s[14]) && IsVariantDigit(s[19])
  }

  predicate HexRun(s: string, n: nat) {
    |s| == n && forall i | 0 <= i < |s| :: IsHexDigit(s[i])
  }

  /** Five hyphen-separated groups of 8, 4, 4, 4 and 12 hex digits, with the version and variant nibbles. */
  predicate UuidGroups(g: seq<string>) {
    |g| == 5
    && HexRun(g[0], 8) && HexRun(g[1], 4) && HexRun(g[2], 4) && HexRun(g[3], 4) && HexRun(g[4], 12)
    && IsVersionDigit(g[2][0]) && IsVariantDigit(g[3][0])
  }

  lemma JoinFive(g: seq<string>)
    requires |g| == 5
    ensures Join(g, '-') == g[0] + "-" + g[1] + "-" + g[2] + "-" + g[3] + "-" + g[4]
  {
    assert g[4..] == [g[4]];
    assert Join(g[3..], '-') == g[3] + "-" + g[4];
    assert Join(g[2..], '-') == g[2] + "-" + (g[3] + "-" + g[4]);
    assert Join(g[1..], '-') == g[1] + "-" + (g[2] + "-" + (g[3] + "-" + g[4]));
  }

  lemma GroupsJoin(g: seq<string>)
    requires UuidGroups(g)
    ensures IsUuid(Join(g, '-'))
  {
    JoinFive(g);
    var s := Join(g, '-');
    assert |s| == 36;
    forall i | 0 <= i < |s|
      ensures if IsHyphenAt(i) then s[i] == '-' else IsHexDigit(s[i])
    {
      if i < 8 { assert s[i] == g[0][i]; }
      else if i == 8 { }
      else if i < 13 { assert s[i] == g[1][i - 9]; }
      else if i == 13 { }
      else if i < 18 { assert s[i] == g[2][i - 14]; }
      else if i == 18 { }
      else if i < 23 { assert s[i] == g[3][i - 19]; }
      else if i == 23 { }
      else { assert s[i] == g[4][i - 24]; }
    }
    assert s[14] == g[2][0] && s[19] == g[3][0];
  }

  lemma UuidSplits(s: string)
    requires IsUuid(s)
    ensures UuidGroups(Split(s, '-'))
  {
    var g := [s[..8], s[9..13], s[14..18], s[19..23], s[24..]];
    forall k | 0 <= k < 5 ensures '-' !in g[k] && forall i | 0 <= i < |g[k]| :: IsHexDigit(g[k][i]) {
      var start := if k == 0 then 0 else if k == 1 then 9 else if k == 2 then 14 else if k == 3 then 19 else 24;
      forall i | 0 <= i < |g[k]| ensures IsHexDigit(g[k][i]) && g[k][i] != '-' {
        assert g[k][i] == s[start + i];
        assert !IsHyphenAt(start + i);
      }
    }
    assert UuidGroups(g);
    JoinFive(g);
    assert s == Join(g, '-');
    SplitJoin(g, '-');
  }

  /** `isUuid` accepts exactly the strings made of five hex groups of 8-4-4-4-12 digits with the version and variant nibbles. */
  lemma UuidIsGroups(s: string)
    ensures IsUuid(s) <==> UuidGroups(Split(s, '-'))
  {
    if IsUuid(s) {
      UuidSplits(s);
    }
    if UuidGroups(Split(s, '-')) {
      JoinSplit(s, '-');
      GroupsJoin(Split(s, '-'));
    }
  }

  lemma LowerCharAgrees(c: char, d: char)
    requires LowerChar(c) == LowerChar(d)
    ensures IsHexDigit(c) == IsHexDigit(d) && IsVersionDigit(c) == IsVersionDigit(d)
    ensures IsVariantDigit(c) == IsVariantDigit(d) && (c == '-' <==> d == '-')
  {
  }

  /** The check ignores letter case: strings that agree once lower-cased are both UUIDs or both not. */
  lemma UuidIgnoresCase(s: string, t: string)
    requires |s| == |t| && forall i | 0 <= i < |s| :: LowerChar(s[i]) == LowerChar(t[i])
    ensures IsUuid(s) == IsUuid(t)
  {
    forall i | 0 <= i < |s| ensures IsHexDigit(s[i]) == IsHexDigit(t[i]) && (s[i] == '-' <==> t[i] == '-') {
      LowerCharAgrees(s[i], t[i]);
    }
    if |s| == 36 {
      LowerCharAgrees(s[14], t[14]);
      LowerCharAgrees(s[19], t[19]);
    }
  }

  /** In particular, upper- and lower-casing a string does not change the verdict. */
  lemma UuidCaseFolds(s: string)
    ensures IsUuid(ToLower(s)) == IsUuid(s) && IsUuid(ToUpper(s)) == IsUuid(s)
  {
    UuidIgnoresCase(ToLower(s), s);
    forall i | 0 <= i < |s| ensures LowerChar(ToUpper(s)[i]) == LowerChar(s[i]) {
      assert ToUpper(s)[i] == UpperChar(s[i]);
    }
    UuidIgnoresCase(ToUpper(s), s);
  }

  /** A version nibble outside 1-5 is refused. */
  lemma VersionOutOfRange(s: string)
    requires |s| == 36 && (s[14] == '0' || '6' <= s[14] <= '9')
    ensures !IsUuid(s)
  {
  }

  // ---------------------------------------------------------------------------
  // Issues

  /** One zod issue: the path of the offending field (empty for the payload itself) and its message. */
  datatype Issue = Issue(path: seq<string>, message: string)

  const NameRequired := "Nome é obrigatório"
  const NameOver50 := "Nome deve ter no máximo 50 caracteres"
  const NameOver100 := "Nome deve ter no máximo 100 caracteres"
  const InvalidTeam := "Time inválido"
  const InvalidProject := "Projeto inválido"
  const InvalidTemplate := "Template inválido"
  const SchemaJsonNotObject := "schema_json deve ser um objeto"
  const RevisionNotInteger := "expected_revision deve ser um inteiro"
  const RevisionBelowOne := "expected_revision deve ser maior ou igual a 1"

  /** zod's name for the type of a value in its invalid-type messages. */
  function TypeName(v: Value): string {
    match v
    case Undefined => "undefined"
    case Null => "null"
    case Bool(_) => "boolean"
    case Num(_) => "number"
    case Str(_) => "string"
    case Arr(_) => "array"
    case _ => "object"
  }

  /** zod's built-in invalid-type issue, reported as "Required" when the value is missing. */
  function TypeIssue(path: seq<string>, expected: string, v: Value): (i: Issue)
    ensures i.path == path
    ensures v.Undefined? <==> i.message == "Required"
  {
    Issue(path, if v.Undefined? then "Required" else "Expected " + expected + ", received " + TypeName(v))
  }

  /** What `z.object` accepts: `typeof v === "object"`, not null and not an array. */
  predicate IsRecord(v: Value) {
    v.Obj? || v.ErrorObj?
  }

  /** `z.string().regex(UUID_REGEX, { message })` on one field. */
  function UuidIssues(field: string, message: string, v: Value): (r: seq<Issue>)
    ensures r == [] <==> v.Str? && IsUuid(v.s)
    ensures forall i | 0 <= i < |r| :: r[i].path == [field]
  {
    if !v.Str? then [TypeIssue([field], "string", v)]
    else if IsUuid(v.s) then []
    else [Issue([field], message)]
  }

  // ---------------------------------------------------------------------------
  // createTeamSchema

  datatype TeamInput = TeamInput(name: string, description: Option<string>)

  function TeamNameIssues(v: Value): seq<Issue> {
    if !v.Str? then [TypeIssue(["name"], "string", v)]
    else
      (if |v.s| < 1 then [Issue(["name"], NameRequired)] else [])
      + (if |v.s| > 50 then [Issue(["name"], NameOver50)] else [])
  }

  function DescriptionIssues(v: Value): seq<Issue> {
    if v.Undefined? || v.Str? then [] else [TypeIssue(["description"], "string", v)]
  }

  /** `createTeamSchema.safeParse(input)`. */
  function CreateTeam(input: Value): (r: Result<TeamInput, seq<Issue>>)
    ensures r.Ok? <==>
      IsRecord(input) && Prop(input, "name").Str? && 1 <= |Prop(input, "name").s| <= 50
      && (Prop(input, "description").Undefined? || Prop(input, "description").Str?)
    ensures r.Ok? ==>
      r.value.name == Prop(input, "name").s
      && r.value.description ==
        (if Prop(input, "description").Str? then Some(Prop(input, "description").s) else None)
    ensures r.Err? ==> r.error != []
  {
    if !IsRecord(input) then Err([TypeIssue([], "object", input)])
    else
      var name := Prop(input, "name");
      var description := Prop(input, "description");
      var issues := TeamNameIssues(name) + DescriptionIssues(description);
      if issues != [] then Err(issues)
      else Ok(TeamInput(name.s, if description.Str? then Some(description.s) else None))
  }

  /** A team payload without a name is refused with zod's "Required" on `name`. */
  lemma TeamNameMissing(input: Value)
    requires IsRecord(input) && Prop(input, "name").Undefined?
    ensures CreateTeam(input).Err? && Issue(["name"], "Required") in CreateTeam(input).error
  {
    assert TeamNameIssues(Prop(input, "name"))[0] == Issue(["name"], "Required");
  }

  /** A well-formed team payload comes back as it was sent. */
  lemma TeamExample(input: Value, name: string, description: string)
    requires name == "Team A" && description == "ok"
    requires IsRecord(input) && Prop(input, "name") == Str(name)
    requires Prop(input, "description") == Str(description)
    ensures CreateTeam(input) == Ok(TeamInput(name, Some(description)))
  {
  }

  // ---------------------------------------------------------------------------
  // createProjectSchema

  datatype ProjectInput = ProjectInput(name: string, teamId: string)

  function ProjectNameIssues(v: Value): seq<Issue> {
    if !v.Str? then [TypeIssue(["name"], "string", v)]
    else if |Text.SanitizeName(v.s)| > 0 then []
    else [Issue(["name"], NameRequired)]
  }

  /** The object-level refinement, skipped when a field had the wrong type. */
  function ProjectLengthIssues(name: Value, teamId: Value): seq<Issue> {
    if name.Str? && teamId.Str? && |Text.SanitizeName(name.s)| > 100 then [Issue(["name"], NameOver100)]
    else []
  }

  /** `createProjectSchema.safeParse(input)`: the name is sanitized before it is checked and returned. */
  function CreateProject(input: Value): (r: Result<ProjectInput, seq<Issue>>)
    ensures r.Ok? <==>
      IsRecord(input) && Prop(input, "name").Str? && Prop(input, "teamId").Str?
      && 0 < |Text.SanitizeName(Prop(input, "name").s)| <= 100 && IsUuid(Prop(input, "teamId").s)
    ensures r.Ok? ==> r.value == ProjectInput(Text.SanitizeName(Prop(input, "name").s), Prop(input, "teamId").s)
    ensures r.Err? ==> r.error != []
  {
    if !IsRecord(input) then Err([TypeIssue([], "object", input)])
    else
      var name := Prop(input, "name");
      var teamId := Prop(input, "teamId");
      var issues := ProjectNameIssues(name) + UuidIssues("teamId", InvalidTeam, teamId)
        + ProjectLengthIssues(name, teamId);
      if issues != [] then Err(issues)
      else Ok(ProjectInput(Text.SanitizeName(name.s), teamId.s))
  }

  /** An accepted project name is trimmed, has single spaces only, and keeps every other character. */
  lemma ProjectNameNormalised(input: Value)
    requires CreateProject(input).Ok?
    ensures var n := CreateProject(input).value.name;
      n != [] && !IsSpace(n[0]) && !IsSpace(n[|n| - 1]) && Text.Collapsed(n)
      && Text.Letters(n) == Text.Letters(Prop(input, "name").s)
  {
    var raw := Prop(input, "name").s;
    Text.SanitizeNameEdges(raw);
    Text.SanitizeNameCollapsed(raw);
    Text.SanitizeNameKeepsLetters(raw);
  }

  /** A whitespace-only name is refused with "Nome é obrigatório". */
  lemma ProjectBlankName(input: Value)
    requires IsRecord(input) && Prop(input, "name").Str?
    requires forall i | 0 <= i < |Prop(input, "name").s| :: IsSpace(Prop(input, "name").s[i])
    ensures CreateProject(input).Err? && Issue(["name"], NameRequired) in CreateProject(input).error
  {
    Text.SanitizeNameEmpty(Prop(input, "name").s);
    assert ProjectNameIssues(Prop(input, "name")) == [Issue(["name"], NameRequired)];
  }

  /** A name too long after sanitizing is reported even when the team id is also bad. */
  lemma ProjectLongNameAndBadTeam(input: Value)
    requires IsRecord(input) && Prop(input, "name").Str? && Prop(input, "teamId").Str?
    requires |Text.SanitizeName(Prop(input, "name").s)| > 100 && !IsUuid(Prop(input, "teamId").s)
    ensures CreateProject(input) == Err([Issue(["teamId"], InvalidTeam), Issue(["name"], NameOver100)])
  {
    var name, teamId := Prop(input, "name"), Prop(input, "teamId");
    assert ProjectNameIssues(name) == [];
    assert UuidIssues("teamId", InvalidTeam, teamId) == [Issue(["teamId"], InvalidTeam)];
    assert ProjectLengthIssues(name, teamId) == [Issue(["name"], NameOver100)];
    var issues := ProjectNameIssues(name) + UuidIssues("teamId", InvalidTeam, teamId)
      + ProjectLengthIssues(name, teamId);
    assert issues == [Issue(["teamId"], InvalidTeam), Issue(["name"], NameOver100)];
  }

  // ---------------------------------------------------------------------------
  // createFileSchema

  datatype FileInput = FileInput(name: Option<string>, projectId: string, template: string)

  /** The `z.preprocess` step: a string is sanitized, and an empty result becomes `undefined`. */
  function PreprocessFileName(v: Value): (r: Value)
    ensures !v.Str? ==> r == v
    ensures v.Str? ==> r.Undefined? || r.Str?
  {
    if !v.Str? then v
    else
      var sanitized := Text.SanitizeName(v.s);
      if |sanitized| > 0 then Str(sanitized) else Undefined
  }

  function FileNameIssues(v: Value): seq<Issue> {
    if v.Undefined? then []
    else if !v.Str? then [TypeIssue(["name"], "string", v)]
    else if |v.s| > 100 then [Issue(["name"], NameOver100)]
    else []
  }

  /** `z.enum(["blank"], { message })`: every failure carries the schema's own message. */
  function TemplateIssues(v: Value): seq<Issue> {
    if v == Str("blank") then [] else [Issue(["template"], InvalidTemplate)]
  }

  /** `createFileSchema.safeParse(input)`. */
  function CreateFile(input: Value): (r: Result<FileInput, seq<Issue>>)
    ensures r.Ok? <==>
      IsRecord(input) && FileNameIssues(PreprocessFileName(Prop(input, "name"))) == []
      && Prop(input, "projectId").Str? && IsUuid(Prop(input, "projectId").s)
      && Prop(input, "template") == Str("blank")
    ensures r.Ok? ==> r.value.template == "blank" && r.value.projectId == Prop(input, "projectId").s
    ensures r.Ok? ==>
      r.value.name ==
        (if Prop(input, "name").Str? && Text.SanitizeName(Prop(input, "name").s) != []
         then Some(Text.SanitizeName(Prop(input, "name").s)) else None)
    ensures r.Err? ==> r.error != []
  {
    if !IsRecord(input) then Err([TypeIssue([], "object", input)])
    else
      var name := PreprocessFileName(Prop(input, "name"));
      var projectId := Prop(input, "projectId");
      var issues := FileNameIssues(name) + UuidIssues("projectId", InvalidProject, projectId)
        + TemplateIssues(Prop(input, "template"));
      if issues != [] then Err(issues)
      else Ok(FileInput(if name.Str? then Some(name.s) else None, projectId.s, "blank"))
  }

  /**
   * The file name rule: absent or blank names are accepted and come out
   * undefined; other strings come out sanitized and must fit in 100
   * characters; anything else is refused.
   */
  lemma FileNameRule(v: Value)
    ensures v.Undefined? ==> FileNameIssues(PreprocessFileName(v)) == [] && PreprocessFileName(v).Undefined?
    ensures v.Str? ==>
      (FileNameIssues(PreprocessFileName(v)) == [] <==> |Text.SanitizeName(v.s)| <= 100)
    ensures v.Str? && (forall i | 0 <= i < |v.s| :: IsSpace(v.s[i])) ==> PreprocessFileName(v).Undefined?
    ensures v.Str? && |Text.SanitizeName(v.s)| > 0 ==> PreprocessFileName(v) == Str(Text.SanitizeName(v.s))
    ensures !v.Undefined? && !v.Str? ==> FileNameIssues(PreprocessFileName(v)) != []
  {
    if v.Str? {
      Text.SanitizeNameEmpty(v.s);
    }
  }

  /** A file name padded and doubly spaced comes out trimmed, with single spaces. */
  lemma FileNameExample(input: Value, raw: string)
    requires raw == "  Meu   Arquivo  "
    requires IsRecord(input) && Prop(input, "name") == Str(raw)
    requires Prop(input, "projectId").Str? && IsUuid(Prop(input, "projectId").s)
    requires Prop(input, "template") == Str("blank")
    ensures CreateFile(input) == Ok(FileInput(Some("Meu Arquivo"), Prop(input, "projectId").s, "blank"))
  {
    FileNameSanitized(raw);
  }

  lemma FileNameSanitized(raw: string)
    requires raw == "  Meu   Arquivo  "
    ensures Text.SanitizeName(raw) == "Meu Arquivo"
  {
    var edge, a, w, b := "  ", "Meu", "   ", "Arquivo";
    assert raw == edge + a + w + b + edge;
    Text.SanitizeNameTwoWords(edge, a, w, b, edge);
    FileNameJoin();
  }

  lemma FileNameJoin()
    ensures "Meu" + " " + "Arquivo" == "Meu Arquivo"
  {
  }

  /** A file name of spaces only is accepted and comes out undefined. */
  lemma FileNameBlank(input: Value, raw: string)
    requires raw == "   "
    requires IsRecord(input) && Prop(input, "name") == Str(raw)
    requires Prop(input, "projectId").Str? && IsUuid(Prop(input, "projectId").s)
    requires Prop(input, "template") == Str("blank")
    ensures CreateFile(input) == Ok(FileInput(None, Prop(input, "projectId").s, "blank"))
  {
    Text.SanitizeNameEmpty(raw);
  }

  /** A template other than "blank" is refused with "Template inválido". */
  lemma FileTemplateOnlyBlank(input: Value)
    requires IsRecord(input) && Prop(input, "template") != Str("blank")
    ensures CreateFile(input).Err? && Issue(["template"], InvalidTemplate) in CreateFile(input).error
  {
  }

  // ---------------------------------------------------------------------------
  // jsonObjectSchema / updateFileSchema

  datatype UpdateInput = UpdateInput(schemaJson: Value, expectedRevision: int)

  /** `!!value && typeof value === "object" && !Array.isArray(value)`. */
  predicate IsJsonObject(v: Value) {
    Truthy(v) && IsObject(v) && !v.Arr?
  }

  predicate IsInteger(n: real) {
    n.Floor as real == n
  }

  function RevisionIssues(v: Value): seq<Issue> {
    if !v.Num? then [TypeIssue(["expected_revision"], "number", v)]
    else
      (if IsInteger(v.n) then [] else [Issue(["expected_revision"], RevisionNotInteger)])
      + (if v.n >= 1.0 then [] else [Issue(["expected_revision"], RevisionBelowOne)])
  }

  /** `updateFileSchema.safeParse(input)`. */
  function UpdateFile(input: Value): (r: Result<UpdateInput, seq<Issue>>)
    ensures r.Ok? <==>
      IsRecord(input) && IsJsonObject(Prop(input, "schema_json"))
      && Prop(input, "expected_revision").Num? && IsInteger(Prop(input, "expected_revision").n)
      && Prop(input, "expected_revision").n >= 1.0
    ensures r.Ok? ==>
      r.value.schemaJson == Prop(input, "schema_json") && r.value.expectedRevision >= 1
      && r.value.expectedRevision as real == Prop(input, "expected_revision").n
    ensures r.Err? ==> r.error != []
  {
    if !IsRecord(input) then Err([TypeIssue([], "object", input)])
    else
      var schemaJson := Prop(input, "schema_json");
      var revision := Prop(input, "expected_revision");
      var issues := (if IsJsonObject(schemaJson) then [] else [Issue(["schema_json"], SchemaJsonNotObject)])
        + RevisionIssues(revision);
      if issues != [] then Err(issues)
      else Ok(UpdateInput(schemaJson, revision.n.Floor))
  }

  /** `schema_json` must be a plain object or an Error: null, arrays, strings, numbers and booleans are refused. */
  lemma JsonObjectShape(v: Value)
    ensures IsJsonObject(v) <==> v.Obj? || v.ErrorObj?
  {
  }

  /** A fractional revision below one collects both the integer and the minimum issue. */
  lemma RevisionBothChecks(input: Value)
    requires IsRecord(input) && IsJsonObject(Prop(input, "schema_json"))
    requires Prop(input, "expected_revision") == Num(0.5)
    ensures UpdateFile(input) == Err([Issue(["expected_revision"], RevisionNotInteger),
                                      Issue(["expected_revision"], RevisionBelowOne)])
  {
    assert !IsInteger(0.5) by { assert (0.5).Floor == 0; }
    assert RevisionIssues(Num(0.5)) == [Issue(["expected_revision"], RevisionNotInteger)]
      + [Issue(["expected_revision"], RevisionBelowOne)];
    var issues := (if IsJsonObject(Prop(input, "schema_json")) then [] else [Issue(["schema_json"], SchemaJsonNotObject)])
      + RevisionIssues(Prop(input, "expected_revision"));
    assert issues == RevisionIssues(Num(0.5));
    assert issues == [Issue(["expected_revision"], RevisionNotInteger), Issue(["expected_revision"], RevisionBelowOne)];
    assert UpdateFile(input) == Err(issues);
  }
}
