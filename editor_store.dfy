/**
 * The editor's document store (apps/web/lib/stores/editor-store.ts): which
 * file is open, its schema and revision. Loading a file keeps its stored
 * schema only when the schema has the shape of the default schema, and falls
 * back to the defaults of the file's template otherwise.
 */
module EditorStore {
  import opened Wrappers
  import opened JsValue
  import opened SchemaDefaults

  /** `isPlainObject`: `typeof value === "object"`, not `null` and not an array. */
  predicate IsPlainObject(v: Value) {
    v.Obj? || v.ErrorObj?
  }

  /** `typeof v === "number"`. */
  predicate IsNumber(v: Value) {
    v.Num?
  }

  /** `typeof v === "string"`. */
  predicate IsString(v: Value) {
    v.Str?
  }

  /** `isSchemaDefaults`: the checks in the order the source makes them, each failing one answering false. */
  predicate IsSchemaDefaults(v: Value) {
    if !IsPlainObject(v) then false
    else if Prop(v, "schemaVersion") != Str(SchemaVersion) then false
    else
      var screen := Prop(v, "screen");
      if !IsPlainObject(screen) then false
      else if Prop(screen, "type") != Str(ScreenRoot) then false
      else
        var layout := Prop(screen, "layout");
        if !IsPlainObject(layout) then false
        else if !IsNumber(Prop(layout, "row")) || !IsNumber(Prop(layout, "col"))
          || !IsNumber(Prop(layout, "width")) || !IsNumber(Prop(layout, "height"))
        then false
        else
          var props := Prop(screen, "props");
          if !IsPlainObject(props) then false
          else if !IsString(Prop(props, "routineName")) || !IsString(Prop(props, "description"))
            || !IsString(Prop(props, "namespace"))
          then false
          else Prop(screen, "children").Arr?
  }

  /**
   * The `SchemaDefaults` type read as a property of a value: a version
   * "1.0.0", a "ScreenRoot" screen whose layout fields are numbers, whose
   * props are strings and whose children form an array.
   */
  predicate HasSchemaDefaultsType(v: Value) {
    && IsPlainObject(v)
    && IsPlainObject(Prop(v, "screen"))
    && IsPlainObject(Prop(Prop(v, "screen"), "layout"))
    && IsPlainObject(Prop(Prop(v, "screen"), "props"))
    && Prop(v, "schemaVersion") == Str(SchemaVersion)
    && Prop(Prop(v, "screen"), "type") == Str(ScreenRoot)
    && (forall f | f in LayoutFields :: IsNumber(Prop(Prop(Prop(v, "screen"), "layout"), f)))
    && (forall f | f in PropsFields :: IsString(Prop(Prop(Prop(v, "screen"), "props"), f)))
    && Prop(Prop(v, "screen"), "children").Arr?
  }

  const LayoutFields: set<string> := {"row", "col", "width", "height"}
  const PropsFields: set<string> := {"routineName", "description", "namespace"}

  /** `parseTemplate`: whatever the stored template, the editor opens it as "blank". */
  function ParseTemplate(template: string): (t: string)
    ensures t == Blank
  {
    if template == Blank then Blank else Blank
  }

  /** The fields of a file as the detail endpoint returns it that the editor reads. */
  datatype FileDetail = FileDetail(id: string, template: string, schemaVersion: string, schemaJson: Value, revision: real)

  /** Where the open document came from: always a stored file. */
  datatype EditorSource = FileSource(fileId: string)

  datatype EditorState = EditorState(
    docId: Option<string>,
    source: Option<EditorSource>,
    schemaVersion: Option<string>,
    schema: Option<Value>,
    revision: Option<real>,
    dirty: bool,
    hasInitialized: bool)

  /** `INITIAL_STATE`: nothing open. */
  const InitialState: EditorState := EditorState(None, None, None, None, None, false, false)

  /** The schema `initializeFromFile` keeps: the stored one if it has the expected shape, else the template's defaults. */
  function SchemaFor(payload: FileDetail): Value {
    if IsSchemaDefaults(payload.schemaJson) then payload.schemaJson
    else GetSchemaDefaults(ParseTemplate(payload.template)).value
  }

  /** The state `initializeFromFile({docId, payload})` sets. */
  function Initialized(docId: string, payload: FileDetail): EditorState {
    EditorState(Some(docId), Some(FileSource(payload.id)), Some(payload.schemaVersion),
      Some(SchemaFor(payload)), Some(payload.revision), false, true)
  }

  /**
   * What every state of the store satisfies: either nothing is open, or every
   * field is set and the schema has the expected shape; and nothing in the
   * store marks the document dirty.
   */
  predicate Consistent(s: EditorState) {
    && !s.dirty
    && (!s.hasInitialized ==> s.docId.None? && s.source.None? && s.schemaVersion.None? && s.schema.None? && s.revision.None?)
    && (s.hasInitialized ==> s.docId.Some? && s.source.Some? && s.schemaVersion.Some? && s.schema.Some? && s.revision.Some?)
    && (s.schema.Some? ==> IsSchemaDefaults(s.schema.value))
  }

  class EditorStore {
    var docId: Option<string>
    var source: Option<EditorSource>
    var schemaVersion: Option<string>
    var schema: Option<Value>
    var revision: Option<real>
    var dirty: bool
    var hasInitialized: bool

    function State(): EditorState
      reads this
    {
      EditorState(docId, source, schemaVersion, schema, revision, dirty, hasInitialized)
    }

    /** `create(...)`: the store starts from `INITIAL_STATE`. */
    constructor ()
      ensures State() == InitialState && Consistent(State())
    {
      docId, source, schemaVersion, schema, revision := None, None, None, None, None;
      dirty, hasInitialized := false, false;
    }

    /** `initializeFromFile({docId, payload})`: opens the file, clean and initialised. */
    method InitializeFromFile(id: string, payload: FileDetail)
      modifies this
      ensures State() == Initialized(id, payload)
      ensures Consistent(State())
    {
      var template := ParseTemplate(payload.template);
      var chosen: Value;
      if IsSchemaDefaults(payload.schemaJson) {
        chosen := payload.schemaJson;
      } else {
        var defaults := GetSchemaDefaults(template);
        chosen := defaults.value;
      }
      docId := Some(id);
      source := Some(FileSource(payload.id));
      schemaVersion := Some(payload.schemaVersion);
      schema := Some(chosen);
      revision := Some(payload.revision);
      dirty := false;
      hasInitialized := true;
      InitializedConsistent(id, payload);
    }

    /** `reset()`: back to `INITIAL_STATE`. */
    method Reset()
      modifies this
      ensures State() == InitialState && Consistent(State())
    {
      docId, source, schemaVersion, schema, revision := None, None, None, None, None;
      dirty, hasInitialized := false, false;
    }
  }

  /** The check is exactly the `SchemaDefaults` type: both directions. */
  lemma SchemaCheckIsType(v: Value)
    ensures IsSchemaDefaults(v) <==> HasSchemaDefaultsType(v)
  {
    if IsSchemaDefaults(v) {
      SchemaCheckSound(v);
    }
    if HasSchemaDefaultsType(v) {
      SchemaCheckComplete(v);
    }
  }

  lemma SchemaCheckSound(v: Value)
    requires IsSchemaDefaults(v)
    ensures HasSchemaDefaultsType(v)
  {
    var layout := Prop(Prop(v, "screen"), "layout");
    var props := Prop(Prop(v, "screen"), "props");
    LayoutNumeric(layout);
    PropsText(props);
  }

  lemma LayoutNumeric(layout: Value)
    requires IsPlainObject(layout)
    requires IsNumber(Prop(layout, "row")) && IsNumber(Prop(layout, "col"))
    requires IsNumber(Prop(layout, "width")) && IsNumber(Prop(layout, "height"))
    ensures forall f | f in LayoutFields :: IsNumber(Prop(layout, f))
  {
  }

  lemma PropsText(props: Value)
    requires IsPlainObject(props)
    requires IsString(Prop(props, "routineName")) && IsString(Prop(props, "description"))
    requires IsString(Prop(props, "namespace"))
    ensures forall f | f in PropsFields :: IsString(Prop(props, f))
  {
  }

  lemma SchemaCheckComplete(v: Value)
    requires HasSchemaDefaultsType(v)
    ensures IsSchemaDefaults(v)
  {
    var layout := Prop(Prop(v, "screen"), "layout");
    var props := Prop(Prop(v, "screen"), "props");
    assert "row" in LayoutFields && "col" in LayoutFields && "width" in LayoutFields && "height" in LayoutFields;
    assert "routineName" in PropsFields && "description" in PropsFields && "namespace" in PropsFields;
  }

  /** `null`, arrays and other non-objects never pass, nor does a wrong version or root type. */
  lemma SchemaCheckRejects(v: Value)
    ensures !IsPlainObject(v) ==> !IsSchemaDefaults(v)
    ensures IsPlainObject(v) && Prop(v, "schemaVersion") != Str("1.0.0") ==> !IsSchemaDefaults(v)
    ensures IsPlainObject(v) && IsPlainObject(Prop(v, "screen")) && Prop(Prop(v, "screen"), "type") != Str("ScreenRoot")
      ==> !IsSchemaDefaults(v)
  {
  }

  /** The blank defaults pass the check. */
  lemma BlankPassesCheck()
    ensures IsSchemaDefaults(BlankSchema)
  {
    BlankDefaults();
    BlankLayout();
    BlankProps();
    var screen, layout, props := Obj(BlankScreenEntries), Obj(BlankLayoutEntries), Obj(BlankPropsEntries);
    PropIsField(BlankSchema, "schemaVersion");
    PropIsField(BlankSchema, "screen");
    PropIsField(screen, "type");
    PropIsField(screen, "layout");
    PropIsField(screen, "props");
    PropIsField(screen, "children");
    PropIsField(layout, "row");
    PropIsField(layout, "col");
    PropIsField(layout, "width");
    PropIsField(layout, "height");
    PropIsField(props, "routineName");
    PropIsField(props, "description");
    PropIsField(props, "namespace");
    CheckFromParts(BlankSchema, screen, layout, props);
  }

  /** On an object, reading a property is looking its key up. */
  lemma PropIsField(v: Value, k: string)
    requires v.Obj?
    ensures Prop(v, k) == Field(v, k)
  {
  }

  /** A value passes the check when its screen, layout and props pass theirs. */
  lemma CheckFromParts(v: Value, screen: Value, layout: Value, props: Value)
    requires v.Obj? && Prop(v, "schemaVersion") == Str(SchemaVersion) && Prop(v, "screen") == screen
    requires screen.Obj? && Prop(screen, "type") == Str(ScreenRoot) && Prop(screen, "children").Arr?
    requires Prop(screen, "layout") == layout && Prop(screen, "props") == props
    requires layout.Obj? && IsNumber(Prop(layout, "row")) && IsNumber(Prop(layout, "col"))
    requires IsNumber(Prop(layout, "width")) && IsNumber(Prop(layout, "height"))
    requires props.Obj? && IsString(Prop(props, "routineName")) && IsString(Prop(props, "description"))
    requires IsString(Prop(props, "namespace"))
    ensures IsSchemaDefaults(v)
  {
  }

  /** The kept schema is the stored one exactly when that passes the check, and always passes it. */
  lemma SchemaForChoice(payload: FileDetail)
    ensures IsSchemaDefaults(payload.schemaJson) ==> SchemaFor(payload) == payload.schemaJson
    ensures !IsSchemaDefaults(payload.schemaJson) ==> SchemaFor(payload) == BlankSchema
    ensures IsSchemaDefaults(SchemaFor(payload))
  {
    BlankPassesCheck();
  }

  /** Loading a file leaves the store consistent, clean and initialised, whatever the payload. */
  lemma InitializedConsistent(docId: string, payload: FileDetail)
    ensures Consistent(Initialized(docId, payload))
    ensures Initialized(docId, payload).hasInitialized && !Initialized(docId, payload).dirty
  {
    SchemaForChoice(payload);
  }
}
