/**
 * The react-hook-form resolver over zod (apps/web/lib/rhf-zod-resolver.ts):
 * a failed parse is flattened into form-level and per-field message lists,
 * and each field keeps its first message as a form error; the first
 * form-level message goes under `root`.
 */
module RhfZodResolver {
  import opened Wrappers
  import opened JsString
  import opened JsValue
  import opened Validators

  /** `error.flatten(issue => issue.message)`: root messages, and message lists per field. */
  datatype Flattened = Flattened(formErrors: seq<string>, fieldErrors: seq<(string, Option<seq<string>>)>)

  /** `{ type, message }`, one form error. */
  datatype FieldError = FieldError(kind: string, message: string)

  const Validation := "validation"
  const Root := "root"

  /** The messages collected so far under a field key. */
  function Messages(fields: seq<(string, Option<seq<string>>)>, k: string): seq<string> {
    var entry := Get(fields, k);
    if entry.Some? && entry.value.Some? then entry.value.value else []
  }

  /**
   * zod's `flatten`: each issue's message is appended to the list of its
   * first path segment, or to the form-level list when its path is empty.
   */
  function Flatten(issues: seq<Issue>): Flattened {
    if issues == [] then Flattened([], [])
    else
      var f := Flatten(issues[..|issues| - 1]);
      var last := issues[|issues| - 1];
      if |last.path| > 0 then
        Flattened(f.formErrors, Put(f.fieldErrors, last.path[0], Some(Messages(f.fieldErrors, last.path[0]) + [last.message])))
      else
        Flattened(f.formErrors + [last.message], f.fieldErrors)
  }

  /** The messages, in order, of the issues whose path starts with `k`. */
  function MessagesAt(issues: seq<Issue>, k: string): seq<string> {
    if issues == [] then []
    else
      var last := issues[|issues| - 1];
      MessagesAt(issues[..|issues| - 1], k) + (if |last.path| > 0 && last.path[0] == k then [last.message] else [])
  }

  /** The messages, in order, of the issues with an empty path. */
  function RootMessages(issues: seq<Issue>): seq<string> {
    if issues == [] then []
    else
      var last := issues[|issues| - 1];
      RootMessages(issues[..|issues| - 1]) + (if |last.path| == 0 then [last.message] else [])
  }

  /**
   * Flattening files every message under its field, in issue order, and
   * lists each field once; a field appears only when it has a message.
   */
  lemma {:induction false} FlattenFiles(issues: seq<Issue>)
    ensures Flatten(issues).formErrors == RootMessages(issues)
    ensures DistinctKeys(Flatten(issues).fieldErrors)
    ensures forall k :: Messages(Flatten(issues).fieldErrors, k) == MessagesAt(issues, k)
    ensures forall k :: HasKey(Flatten(issues).fieldErrors, k) <==> MessagesAt(issues, k) != []
  {
    if issues != [] {
      var init := issues[..|issues| - 1];
      var last := issues[|issues| - 1];
      FlattenFiles(init);
      var f := Flatten(init);
      if |last.path| > 0 {
        var key := last.path[0];
        var fields := Put(f.fieldErrors, key, Some(Messages(f.fieldErrors, key) + [last.message]));
        assert Flatten(issues).fieldErrors == fields;
        PutDistinct(f.fieldErrors, key, Some(Messages(f.fieldErrors, key) + [last.message]));
        forall k ensures Messages(fields, k) == MessagesAt(issues, k)
          && (HasKey(fields, k) <==> MessagesAt(issues, k) != [])
        {
          PutGet(f.fieldErrors, key, Some(Messages(f.fieldErrors, key) + [last.message]), k);
        }
      } else {
        forall k ensures MessagesAt(issues, k) == MessagesAt(init, k) { }
      }
    }
  }

  // ---------------------------------------------------------------------------
  // zodFlattenToRhfErrors

  /** `messages?.[0]` when it is truthy. */
  function FirstMessage(messages: Option<seq<string>>): (r: Option<string>)
    ensures r.Some? <==> messages.Some? && messages.value != [] && messages.value[0] != ""
    ensures r.Some? ==> r.value == messages.value[0]
  {
    if messages.Some? && messages.value != [] && messages.value[0] != "" then Some(messages.value[0]) else None
  }

  /** The form errors the field loop writes, for the entries of `fieldErrors` in order. */
  function FieldErrorsOf(fields: seq<(string, Option<seq<string>>)>): seq<(string, FieldError)> {
    if fields == [] then []
    else
      var before := FieldErrorsOf(fields[..|fields| - 1]);
      var last := fields[|fields| - 1];
      var m := FirstMessage(last.1);
      if m.Some? then Put(before, last.0, FieldError(Validation, m.value)) else before
  }

  /** The whole result of `zodFlattenToRhfErrors`: the field errors, then `root`. */
  function RhfErrors(flat: Flattened): seq<(string, FieldError)> {
    var fields := FieldErrorsOf(flat.fieldErrors);
    var form := FirstMessage(Some(flat.formErrors));
    if form.Some? then Put(fields, Root, FieldError(Validation, form.value)) else fields
  }

  /** The error a field gets from its message list, if any. */
  function ErrorFor(messages: Option<seq<string>>): Option<FieldError> {
    var m := FirstMessage(messages);
    if m.Some? then Some(FieldError(Validation, m.value)) else None
  }

  /** `zodFlattenToRhfErrors(flattened)`. */
  method FlattenToRhfErrors(flat: Flattened) returns (errors: seq<(string, FieldError)>)
    ensures errors == RhfErrors(flat)
  {
    errors := [];
    for i := 0 to |flat.fieldErrors|
      invariant errors == FieldErrorsOf(flat.fieldErrors[..i])
    {
      assert flat.fieldErrors[..i + 1][..i] == flat.fieldErrors[..i];
      var (field, messages) := flat.fieldErrors[i];
      var message := FirstMessage(messages);
      if message.None? {
        continue;
      }
      errors := Put(errors, field, FieldError(Validation, message.value));
    }
    assert flat.fieldErrors[..|flat.fieldErrors|] == flat.fieldErrors;
    var formMessage := FirstMessage(Some(flat.formErrors));
    if formMessage.Some? {
      errors := Put(errors, Root, FieldError(Validation, formMessage.value));
    }
  }

  /** With the distinct keys of a record, each field holds the error of its own first message, and no other key appears. */
  lemma {:induction false} FieldErrorsReads(fields: seq<(string, Option<seq<string>>)>, k: string)
    requires DistinctKeys(fields)
    ensures Get(FieldErrorsOf(fields), k) == if HasKey(fields, k) then ErrorFor(Get(fields, k).value) else None
    ensures DistinctKeys(FieldErrorsOf(fields))
  {
    if fields != [] {
      var init := fields[..|fields| - 1];
      var last := fields[|fields| - 1];
      assert DistinctKeys(init);
      FieldErrorsReads(init, k);
      var before := FieldErrorsOf(init);
      var m := FirstMessage(last.1);
      if m.Some? {
        PutGet(before, last.0, FieldError(Validation, m.value), k);
        PutDistinct(before, last.0, FieldError(Validation, m.value));
      }
      assert Keys(fields) == Keys(init) + [last.0];
      if k == last.0 {
        assert !HasKey(init, k) by {
          forall j | 0 <= j < |init| ensures init[j].0 != k { assert init[j] == fields[j]; }
        }
        GetAt(fields, |fields| - 1);
      } else if HasKey(init, k) {
        var j :| 0 <= j < |init| && Keys(init)[j] == k;
        assert init[j] == fields[j];
        GetAt(fields, j);
        GetAt(init, j);
      }
    }
  }

  /**
   * The result of `zodFlattenToRhfErrors`: `root` holds the first form-level
   * message when there is one, overriding a field called "root"; every other
   * key is a field whose first message is non-empty, with that message.
   */
  lemma RhfErrorsReads(flat: Flattened, k: string)
    requires DistinctKeys(flat.fieldErrors)
    ensures var form := FirstMessage(Some(flat.formErrors));
      Get(RhfErrors(flat), k) ==
        if k == Root && form.Some? then Some(FieldError(Validation, form.value))
        else if HasKey(flat.fieldErrors, k) then ErrorFor(Get(flat.fieldErrors, k).value)
        else None
    ensures DistinctKeys(RhfErrors(flat))
    ensures forall i | 0 <= i < |RhfErrors(flat)| :: RhfErrors(flat)[i].1.kind == Validation
  {
    var fields := FieldErrorsOf(flat.fieldErrors);
    FieldErrorsReads(flat.fieldErrors, k);
    var form := FirstMessage(Some(flat.formErrors));
    if form.Some? {
      PutGet(fields, Root, FieldError(Validation, form.value), k);
      PutDistinct(fields, Root, FieldError(Validation, form.value));
    }
    forall i | 0 <= i < |RhfErrors(flat)| ensures RhfErrors(flat)[i].1.kind == Validation {
      var key := RhfErrors(flat)[i].0;
      FieldErrorsReads(flat.fieldErrors, key);
      if form.Some? {
        PutGet(fields, Root, FieldError(Validation, form.value), key);
        PutDistinct(fields, Root, FieldError(Validation, form.value));
      }
      GetAt(RhfErrors(flat), i);
    }
  }

  // ---------------------------------------------------------------------------
  // zodSafeResolver

  /** What the resolver hands back: the parsed values (or `{}`) and the form errors. */
  datatype Resolved<T> = Resolved(values: Option<T>, errors: seq<(string, FieldError)>)

  /** `zodSafeResolver(schema)(values)` for the outcome of `schema.safeParse(values)`: it never throws. */
  function SafeResolve<T>(parsed: Result<T, seq<Issue>>): (r: Resolved<T>)
    ensures parsed.Ok? <==> r.values.Some?
    ensures parsed.Ok? ==> r.values.value == parsed.value && r.errors == []
  {
    match parsed
    case Ok(data) => Resolved(Some(data), [])
    case Err(issues) => Resolved(None, RhfErrors(Flatten(issues)))
  }

  /**
   * After a failed parse, a field other than `root` shows the first issue
   * filed under it, and `root` shows the first issue of the payload itself
   * when there is one.
   */
  lemma ResolveFailure<T>(parsed: Result<T, seq<Issue>>, k: string)
    requires parsed.Err?
    ensures var issues := parsed.error;
      var r := SafeResolve(parsed);
      var form := FirstMessage(Some(RootMessages(issues)));
      r.values.None?
      && Get(r.errors, k) ==
        if k == Root && form.Some? then Some(FieldError(Validation, form.value))
        else ErrorFor(if MessagesAt(issues, k) == [] then None else Some(MessagesAt(issues, k)))
  {
    var issues := parsed.error;
    var flat := Flatten(issues);
    FlattenFiles(issues);
    RhfErrorsReads(flat, k);
    if HasKey(flat.fieldErrors, k) {
      assert Get(flat.fieldErrors, k).value == Some(Messages(flat.fieldErrors, k));
    }
  }

  /** A project form with a blank name and a valid team shows "Nome é obrigatório" on `name`, and nothing else. */
  lemma BlankProjectNameShown(input: Value)
    requires IsRecord(input) && Prop(input, "name").Str? && Prop(input, "teamId").Str?
    requires forall i | 0 <= i < |Prop(input, "name").s| :: IsSpace(Prop(input, "name").s[i])
    requires IsUuid(Prop(input, "teamId").s)
    ensures SafeResolve(CreateProject(input)).errors == [("name", FieldError(Validation, NameRequired))]
  {
    ProjectBlankName(input);
    Validators.Text.SanitizeNameEmpty(Prop(input, "name").s);
    var issues := [Issue(["name"], NameRequired)];
    var name, teamId := Prop(input, "name"), Prop(input, "teamId");
    assert ProjectNameIssues(name) == issues;
    assert ProjectLengthIssues(name, teamId) == [];
    assert ProjectNameIssues(name) + UuidIssues("teamId", InvalidTeam, teamId) + ProjectLengthIssues(name, teamId) == issues;
    assert CreateProject(input) == Err(issues);
    assert issues[..0] == [];
    assert Flatten(issues[..0]) == Flattened([], []);
    assert Messages([], "name") == [];
    assert [] + [NameRequired] == [NameRequired];
    var empty: seq<(string, Option<seq<string>>)> := [];
    assert Put(empty, "name", Some(Messages(empty, "name") + [NameRequired])) == [("name", Some([NameRequired]))];
    assert Flatten(issues) == Flattened([], [("name", Some([NameRequired]))]);
    var fields := [("name", Some([NameRequired]))];
    assert fields[..0] == [];
    assert FieldErrorsOf(fields) == [("name", FieldError(Validation, NameRequired))];
  }
}
