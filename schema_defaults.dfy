/**
 * The default screen schema a new file starts from
 * (apps/web/lib/schemaDefaults.ts, `getSchemaDefaults`).
 */
module SchemaDefaults {
  import opened Wrappers
  import opened JsValue

  /** The only template the application knows. */
  const Blank: string := "blank"

  /** The schema version every default schema carries. */
  const SchemaVersion: string := "1.0.0"

  /** The type of the root node of a screen. */
  const ScreenRoot: string := "ScreenRoot"

  /** The blank layout: an 80 by 24 screen at row 1, column 1. */
  const BlankLayoutEntries: seq<(string, Value)> :=
    [("row", Num(1.0)), ("col", Num(1.0)), ("width", Num(80.0)), ("height", Num(24.0))]

  /** The blank screen properties, all empty. */
  const BlankPropsEntries: seq<(string, Value)> :=
    [("routineName", Str("")), ("description", Str("")), ("namespace", Str(""))]

  /** The blank root node, with no children. */
  const BlankScreenEntries: seq<(string, Value)> :=
    [("type", Str(ScreenRoot)), ("layout", Obj(BlankLayoutEntries)), ("props", Obj(BlankPropsEntries)), ("children", Arr([]))]

  /** The schema of a blank file. */
  const BlankSchema: Value := Obj([("schemaVersion", Str(SchemaVersion)), ("screen", Obj(BlankScreenEntries))])

  /** `getSchemaDefaults(template)`: the blank schema, or the message of the `Error` thrown for any other template. */
  function GetSchemaDefaults(template: string): Result<Value, string> {
    if template == Blank then Ok(BlankSchema)
    else Err("Unsupported template: " + template)
  }

  /** `v[k]` for a plain object `v`; anything else reads as `undefined` here. */
  function Field(v: Value, k: string): Value {
    if v.Obj? then Get(v.entries, k).GetOr(Undefined) else Undefined
  }

  /** Only "blank" has defaults; every other template is an error naming it. */
  lemma DefaultsOnlyForBlank(template: string)
    ensures GetSchemaDefaults(template).Ok? <==> template == Blank
    ensures GetSchemaDefaults(template).Err? ==> GetSchemaDefaults(template).error == "Unsupported template: " + template
  {
  }

  /** The blank defaults carry version "1.0.0", a "ScreenRoot" screen and no children. */
  lemma BlankDefaults()
    ensures GetSchemaDefaults(Blank) == Ok(BlankSchema)
    ensures Field(BlankSchema, "schemaVersion") == Str("1.0.0")
    ensures Field(BlankSchema, "screen") == Obj(BlankScreenEntries)
    ensures Field(Obj(BlankScreenEntries), "type") == Str("ScreenRoot")
    ensures Field(Obj(BlankScreenEntries), "layout") == Obj(BlankLayoutEntries)
    ensures Field(Obj(BlankScreenEntries), "props") == Obj(BlankPropsEntries)
    ensures Field(Obj(BlankScreenEntries), "children") == Arr([])
  {
    var screen := BlankScreenEntries;
    assert DistinctKeys(screen) by {
      assert |"type"| == 4 && |"layout"| == 6 && |"props"| == 5 && |"children"| == 8;
    }
    GetAt(screen, 1);
    GetAt(screen, 2);
    GetAt(screen, 3);
    var top := BlankSchema.entries;
    assert DistinctKeys(top) by {
      assert |"schemaVersion"| == 13 && |"screen"| == 6;
    }
    GetAt(top, 1);
  }

  /** The blank layout is row 1, column 1, width 80 and height 24. */
  lemma BlankLayout()
    ensures Field(Obj(BlankLayoutEntries), "row") == Num(1.0) && Field(Obj(BlankLayoutEntries), "col") == Num(1.0)
    ensures Field(Obj(BlankLayoutEntries), "width") == Num(80.0) && Field(Obj(BlankLayoutEntries), "height") == Num(24.0)
  {
    var layout := BlankLayoutEntries;
    assert DistinctKeys(layout) by {
      assert "row"[0] != "col"[0];
      assert |"row"| == 3 && |"width"| == 5 && |"height"| == 6;
    }
    GetAt(layout, 1);
    GetAt(layout, 2);
    GetAt(layout, 3);
  }

  /** The blank screen's routine name, description and namespace are all empty. */
  lemma BlankProps()
    ensures Field(Obj(BlankPropsEntries), "routineName") == Str("")
    ensures Field(Obj(BlankPropsEntries), "description") == Str("")
    ensures Field(Obj(BlankPropsEntries), "namespace") == Str("")
  {
    var props := BlankPropsEntries;
    assert DistinctKeys(props) by {
      assert "routineName"[0] != "description"[0];
      assert |"routineName"| == 11 && |"namespace"| == 9;
    }
    GetAt(props, 1);
    GetAt(props, 2);
  }
}
