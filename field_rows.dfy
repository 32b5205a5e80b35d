/**
 * Per-field permission rows of a page (fastapi_user_auth/utils.py): one row per
 * schema field, naming the field-level permission `<action>:<alias or name>`.
 */
module FieldRows {
  import opened Wrappers
  import opened AdminTree

  /** A row: its label (`caption`) and its permission key (`rol`). */
  datatype Row = Row(caption: string, rol: string)

  /** The label prefixes of the seven actions that have one. */
  const LabelPrefixes: map<string, string> := map[
    "list" := "列表展示",
    "filter" := "列表筛选",
    "update" := "更新",
    "bulk_update" := "批量更新",
    "create" := "新增",
    "bulk_create" := "批量新增",
    "read" := "查看"
  ]

  /** `field.field_info.title or field.name`. */
  function TitleOrName(f: Field): string
  {
    if f.title != "" then f.title else f.name
  }

  /** The label of a field's row: prefixed with `"<prefix>-"` only for an action that has a prefix. */
  function RowCaption(f: Field, action: string): (c: string)
    ensures action in LabelPrefixes ==> c == LabelPrefixes[action] + "-" + TitleOrName(f)
    ensures action !in LabelPrefixes ==> c == TitleOrName(f)
  {
    var prefix := if action in LabelPrefixes then LabelPrefixes[action] else "";
    if prefix != "" then prefix + "-" + TitleOrName(f) else TitleOrName(f)
  }

  /** The rows of a schema for an action: none for a missing schema, else one per field. */
  function SchemaRows(schema: Option<Schema>, action: string): (rows: seq<Row>)
    ensures schema.None? ==> rows == []
    ensures schema.Some? ==> |rows| == |schema.value|
    ensures schema.Some? ==> forall i :: 0 <= i < |rows| ==>
      rows[i].rol == action + ":" + AliasOrName(schema.value[i]) && rows[i].caption == RowCaption(schema.value[i], action)
  {
    if schema.None? then []
    else seq(|schema.value|, i requires 0 <= i < |schema.value| => Row(RowCaption(schema.value[i], action), action + ":" + AliasOrName(schema.value[i])))
  }

  /** `admin_schema_fields_rows`: the loop over the schema's fields. */
  method AdminSchemaFieldsRows(schema: Option<Schema>, action: string) returns (rows: seq<Row>)
    ensures rows == SchemaRows(schema, action)
  {
    rows := [];
    if schema.None? {
      return;
    }
    var fields := schema.value;
    var i := 0;
    while i < |fields|
      invariant 0 <= i <= |fields|
      invariant |rows| == i
      invariant forall k :: 0 <= k < i ==> rows[k] == Row(RowCaption(fields[k], action), action + ":" + AliasOrName(fields[k]))
    {
      var f := fields[i];
      var caption := TitleOrName(f);
      var alias := AliasOrName(f);
      var prefix := if action in LabelPrefixes then LabelPrefixes[action] else "";
      caption := if prefix != "" then prefix + "-" + caption else caption;
      rows := rows + [Row(caption, action + ":" + alias)];
      i := i + 1;
    }
  }

  /**
   * `get_admin_action_fields_rows`: the rows of the schemas an action edits or shows.
   * An action the admin kind does not handle, and any group or plain page, has none.
   */
  function ActionFieldsRows(admin: Admin, action: string): (rows: seq<Row>)
    ensures admin.ModelAdmin? && action !in {"list", "update", "bulk_update", "create", "bulk_create", "read"} ==> rows == []
    ensures admin.FormAdmin? && action != "submit" ==> rows == []
    ensures admin.AdminGroup? || admin.PageAdmin? ==> rows == []
  {
    if admin.ModelAdmin? then
      if action == "list" then SchemaRows(admin.schemaList, "list") + SchemaRows(admin.schemaFilter, "filter")
      else if action == "update" || action == "bulk_update" then SchemaRows(admin.schemaUpdate, action)
      else if action == "create" || action == "bulk_create" then SchemaRows(admin.schemaCreate, action)
      else if action == "read" then SchemaRows(admin.schemaRead, action)
      else []
    else if admin.FormAdmin? && action == "submit" then SchemaRows(admin.schema, action)
    else []
  }

  /**
   * A model admin's `list` rows are its list-schema rows tagged `list:` followed by
   * its filter-schema rows tagged `filter:`.
   */
  lemma ListRowsSpec(admin: Admin)
    requires admin.ModelAdmin?
    ensures var rows := ActionFieldsRows(admin, "list");
      var m := |SchemaRows(admin.schemaList, "list")|;
      && |rows| == m + |SchemaRows(admin.schemaFilter, "filter")|
      && (forall i :: 0 <= i < m ==> rows[i].rol == "list:" + AliasOrName(admin.schemaList.value[i]))
      && (forall i :: m <= i < |rows| ==> rows[i].rol == "filter:" + AliasOrName(admin.schemaFilter.value[i - m]))
  {
    var a := SchemaRows(admin.schemaList, "list");
    var b := SchemaRows(admin.schemaFilter, "filter");
    assert ActionFieldsRows(admin, "list") == a + b;
  }

  /** Every row of a schema carries the action's tag; `f` is the tagged field key. */
  lemma SchemaRowTagged(schema: Option<Schema>, action: string, r: Row) returns (f: string)
    requires r in SchemaRows(schema, action)
    ensures r.rol == action + ":" + f
  {
    var rows := SchemaRows(schema, action);
    var i :| 0 <= i < |rows| && rows[i] == r;
    f := AliasOrName(schema.value[i]);
  }

  /** Every row an admin offers for an action carries that action's tag (`list` also `filter`). */
  lemma RowsTagged(admin: Admin, action: string, r: Row)
    requires r in ActionFieldsRows(admin, action)
    ensures exists f :: r.rol == action + ":" + f || (action == "list" && r.rol == "filter:" + f)
  {
    var f: string;
    var rows := ActionFieldsRows(admin, action);
    if admin.ModelAdmin? && action == "list" {
      var a := SchemaRows(admin.schemaList, "list");
      var b := SchemaRows(admin.schemaFilter, "filter");
      assert ActionFieldsRows(admin, action) == a + b;
      if r in a {
        f := SchemaRowTagged(admin.schemaList, "list", r);
      } else {
        f := SchemaRowTagged(admin.schemaFilter, "filter", r);
      }
    } else if admin.ModelAdmin? && action == "read" {
      assert rows == SchemaRows(admin.schemaRead, action);
      f := SchemaRowTagged(admin.schemaRead, action, r);
    } else if admin.ModelAdmin? && (action == "update" || action == "bulk_update") {
      assert rows == SchemaRows(admin.schemaUpdate, action);
      f := SchemaRowTagged(admin.schemaUpdate, action, r);
    } else if admin.ModelAdmin? && (action == "create" || action == "bulk_create") {
      assert rows == SchemaRows(admin.schemaCreate, action);
      f := SchemaRowTagged(admin.schemaCreate, action, r);
    } else if admin.ModelAdmin? {
      assert false;
    } else {
      assert admin.FormAdmin? && action == "submit";
      assert rows == SchemaRows(admin.schema, action);
      f := SchemaRowTagged(admin.schema, action, r);
    }
    assert r.rol == action + ":" + f || (action == "list" && r.rol == "filter:" + f);
  }
}
