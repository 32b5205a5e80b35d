/**
 * The admin hierarchy the permission logic walks, as a tagged variant instead of
 * run-time type tests: a model admin, a form admin, a group of admins, or any
 * other page.
 */
module AdminTree {
  import opened Wrappers

  /**
   * A schema field. `alias` and `title` are "" when unset, so that Python's
   * `field.alias or field.name` is `AliasOrName`.
   */
  datatype Field = Field(name: string, alias: string, title: string, required: bool)

  /** The key a field is known by in payloads and in the deny sets. */
  function AliasOrName(f: Field): string
  {
    if f.alias != "" then f.alias else f.name
  }

  /** A schema: its fields in declaration order. A missing schema is `None`. */
  type Schema = seq<Field>

  /** The display schema of a page: its label (`caption`; `label` is a Dafny keyword) and an optional sort weight. */
  datatype PageSchema = PageSchema(caption: string, sort: Option<int>)

  /** A registered admin action: its name and its display label. */
  datatype AdminAction = AdminAction(name: string, caption: string)

  /** `registered_admin_actions`: an insertion-ordered dictionary from key to action. */
  type ActionTable = seq<(string, AdminAction)>

  /** The keys of an action table, in order. */
  function TableKeys(t: ActionTable): (ks: seq<string>)
    ensures |ks| == |t|
    ensures forall i :: 0 <= i < |t| ==> ks[i] == t[i].0
  {
    seq(|t|, i requires 0 <= i < |t| => t[i].0)
  }

  /** A dictionary holds each key once. */
  predicate UniqueKeys(t: ActionTable)
  {
    forall i, j :: 0 <= i < j < |t| ==> t[i].0 != t[j].0
  }

  /** The app an admin is registered in, or `OwnApp` for an admin that is its own app (a site). */
  datatype AppRef = OwnApp | App(id: string)

  datatype Admin =
    | ModelAdmin(uniqueId: string, app: AppRef, pageSchema: Option<PageSchema>, actions: ActionTable,
                 schemaList: Option<Schema>, schemaFilter: Option<Schema>, schemaCreate: Option<Schema>,
                 schemaRead: Option<Schema>, schemaUpdate: Option<Schema>)
    | FormAdmin(uniqueId: string, app: AppRef, pageSchema: Option<PageSchema>, actions: ActionTable,
                schema: Option<Schema>)
    | AdminGroup(uniqueId: string, app: AppRef, pageSchema: Option<PageSchema>, admins: seq<Admin>)
    | PageAdmin(uniqueId: string, app: AppRef, pageSchema: Option<PageSchema>)
  {
    /** Model and form admins are the ones that carry registered actions. */
    predicate IsActionAdmin()
    {
      ModelAdmin? || FormAdmin?
    }
  }
}
