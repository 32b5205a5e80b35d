/**
 * Field-level permissions of a model admin (fastapi_user_auth/mixins/admin.py,
 * `AuthModelAdmin`): which fields each action checks, which of them the current
 * subject is denied (memoised per request), and the hooks that strip denied
 * fields from payloads, results and generated UI.
 */
module AuthAdmin {
  import opened Wrappers
  import opened AdminTree
  import opened SystemUser

  /** `permission_exclude`: per action, or `all`, the fields that are never checked. */
  type PermissionExclude = map<string, seq<string>>

  /**
   * `get_schema_fields_name_label(schema, prefix, exclude_required, exclude)`, whose
   * body is not part of this model: a map from field key to label.
   */
  type NameLabel = (Option<Schema>, string, bool, seq<string>) -> map<string, string>

  /** The enforcer's answer to `enforce(subject, object, field key, action key)`. */
  type Enforce = (string, string, string, string) -> bool

  /** The actions whose fields are checked. */
  const CheckedActions: set<string> := {"list", "filter", "create", "read", "update"}

  /** `d.get(key, [])`. */
  function GetList(d: PermissionExclude, key: string): seq<string>
  {
    if key in d then d[key] else []
  }

  /** The exclusion list of an action: the `all` entry followed by the action's own. */
  function Excluded(d: PermissionExclude, action: string): (ex: seq<string>)
    ensures forall f :: f in ex <==> f in GetList(d, "all") || f in GetList(d, action)
  {
    GetList(d, "all") + GetList(d, action)
  }

  /** The name-label function leaves every field of the exclusion list out of its result. */
  ghost predicate HonoursExclusion(nameLabel: NameLabel)
  {
    forall schema, prefix, required, exclude, f ::
      f in nameLabel(schema, prefix, required, exclude) ==> f !in exclude
  }

  /** An action as an f-string renders it: `None` becomes "None". */
  function ActionText(action: Option<string>): string
  {
    if action.Some? then action.value else "None"
  }

  /** `identity or GUEST`, prefixed with `u:`. */
  function Subject(identity: Option<string>): (s: string)
    ensures identity.None? || identity.value == "" ==> s == UserPrefix + Guest
    ensures identity.Some? && identity.value != "" ==> s == UserPrefix + identity.value
  {
    UserPrefix + (if identity.None? || identity.value == "" then Guest else identity.value)
  }

  /** The enforcer request of a field check. */
  datatype FieldRequest = FieldRequest(subject: string, obj: string, fieldKey: string, actionKey: string)

  /**
   * The request `has_field_permission` sends: the field key `page:<action>:<field>`
   * extends the action key `page:<action>`, so a grant on the action covers its fields
   * in the engine's hierarchical matching.
   */
  function FieldCheck(identity: Option<string>, uniqueId: string, field: string, action: Option<string>): (r: FieldRequest)
    ensures r.subject == Subject(identity) && r.obj == uniqueId
    ensures r.actionKey == "page:" + ActionText(action)
    ensures r.fieldKey == r.actionKey + ":" + field
  {
    var act := "page:" + ActionText(action);
    FieldRequest(Subject(identity), uniqueId, act + ":" + field, act)
  }

  /** `has_field_permission`: exactly the enforcer's answer to the field check. */
  function HasFieldPermission(identity: Option<string>, uniqueId: string, field: string, action: Option<string>, enforce: Enforce): bool
  {
    var q := FieldCheck(identity, uniqueId, field, action);
    enforce(q.subject, q.obj, q.fieldKey, q.actionKey)
  }

  /** The request-scoped storage of one admin: per action, the denied fields. */
  type DenyCache = map<Option<string>, set<string>>

  class Request {
    /** What the authentication layer resolves the request's user to. */
    const identity: Option<string>
    /** The entries of `request.scope` this core writes. */
    var scope: map<string, DenyCache>

    constructor (identity: Option<string>)
      ensures this.identity == identity && scope == map[]
    {
      this.identity := identity;
      scope := map[];
    }
  }

  /** The error `route_read` answers with when the read gate refuses. */
  datatype ApiError = NoPermission

  /** `route_read`'s data: a single item is unwrapped, any other number stays a list. */
  datatype ReadData<V> = Single(item: map<string, V>) | Many(items: seq<map<string, V>>)

  class AuthModelAdmin {
    const uniqueId: string
    const permissionExclude: PermissionExclude
    const schemaList: Option<Schema>
    const schemaFilter: Option<Schema>
    const schemaCreate: Option<Schema>
    const schemaRead: Option<Schema>
    const schemaUpdate: Option<Schema>
    const nameLabel: NameLabel
    /** The five cached `<action>_permission_fields` properties, keyed by action. */
    var fieldsCache: map<string, map<string, string>>

    /** A cached property, once computed, holds `get_permission_fields` of its action. */
    ghost predicate Valid()
      reads this
    {
      forall a :: a in fieldsCache ==> a in CheckedActions && fieldsCache[a] == PermissionFields(a)
    }

    /** `__init__`: a missing exclusion configuration becomes the empty one. */
    constructor (uniqueId: string, permissionExclude: Option<PermissionExclude>,
                 schemaList: Option<Schema>, schemaFilter: Option<Schema>, schemaCreate: Option<Schema>,
                 schemaRead: Option<Schema>, schemaUpdate: Option<Schema>, nameLabel: NameLabel)
      ensures this.permissionExclude == permissionExclude.GetOr(map[])
      ensures this.uniqueId == uniqueId && this.nameLabel == nameLabel
      ensures this.schemaList == schemaList && this.schemaFilter == schemaFilter && this.schemaCreate == schemaCreate
      ensures this.schemaRead == schemaRead && this.schemaUpdate == schemaUpdate
      ensures fieldsCache == map[] && Valid()
    {
      this.uniqueId := uniqueId;
      this.permissionExclude := permissionExclude.GetOr(map[]);
      this.schemaList, this.schemaFilter, this.schemaCreate := schemaList, schemaFilter, schemaCreate;
      this.schemaRead, this.schemaUpdate := schemaRead, schemaUpdate;
      this.nameLabel := nameLabel;
      fieldsCache := map[];
    }

    /** The schema and label prefix each checked action reads its fields from. */
    function SchemaOf(action: string): Option<Schema>
      requires action in CheckedActions
    {
      match action
      case "list" => schemaList
      case "filter" => schemaFilter
      case "create" => schemaCreate
      case "read" => schemaRead
      case _ => schemaUpdate
    }

    function PrefixOf(action: string): string
      requires action in CheckedActions
    {
      match action
      case "list" => "列表展示-"
      case "filter" => "列表筛选-"
      case "create" => "新增-"
      case "read" => "查看-"
      case _ => "更新-"
    }

    /**
     * `get_permission_fields`: for a checked action, the name-label map of its schema
     * without required fields and without the `all` and the action's own exclusions;
     * for any other action, nothing.
     */
    function PermissionFields(action: string): (r: map<string, string>)
      ensures action !in CheckedActions ==> r == map[]
      ensures action in CheckedActions ==>
        r == nameLabel(SchemaOf(action), PrefixOf(action), true, Excluded(permissionExclude, action))
    {
      if action == "list" then
        nameLabel(schemaList, "列表展示-", true, GetList(permissionExclude, "all") + GetList(permissionExclude, "list"))
      else if action == "filter" then
        nameLabel(schemaFilter, "列表筛选-", true, GetList(permissionExclude, "all") + GetList(permissionExclude, "filter"))
      else if action == "create" then
        nameLabel(schemaCreate, "新增-", true, GetList(permissionExclude, "all") + GetList(permissionExclude, "create"))
      else if action == "read" then
        nameLabel(schemaRead, "查看-", true, GetList(permissionExclude, "all") + GetList(permissionExclude, "read"))
      else if action == "update" then
        nameLabel(schemaUpdate, "更新-", true, GetList(permissionExclude, "all") + GetList(permissionExclude, "update"))
      else map[]
    }

    /** A field excluded for an action (or for all) is never among that action's checked fields. */
    lemma ExcludedNeverChecked(action: string, f: string)
      requires HonoursExclusion(nameLabel)
      requires f in GetList(permissionExclude, "all") || f in GetList(permissionExclude, action)
      ensures f !in PermissionFields(action)
    {
    }

    /** `<action>_permission_fields`: computed on first access, then served from the cache. */
    method CachedPermissionFields(action: string) returns (fields: map<string, string>)
      requires Valid() && action in CheckedActions
      modifies this`fieldsCache
      ensures Valid()
      ensures fields == PermissionFields(action)
      ensures fieldsCache == old(fieldsCache)[action := fields]
    {
      if action in fieldsCache {
        fields := fieldsCache[action];
      } else {
        fields := PermissionFields(action);
        fieldsCache := fieldsCache[action := fields];
      }
    }

    /** The fields `get_deny_fields` checks for an action: none for an unchecked action or `None`. */
    function CheckFields(action: Option<string>): set<string>
    {
      if action.Some? && action.value in CheckedActions then PermissionFields(action.value).Keys else {}
    }

    /** The fields of an action the subject is denied under the given enforcer. */
    function DenySet(action: Option<string>, identity: Option<string>, enforce: Enforce): (d: set<string>)
      ensures d <= CheckFields(action)
      ensures forall f :: f in d <==> f in CheckFields(action) && !HasFieldPermission(identity, uniqueId, f, action, enforce)
    {
      set f | f in CheckFields(action) && !HasFieldPermission(identity, uniqueId, f, action, enforce)
    }

    /** An action outside list/filter/create/update/read, `None` included, denies nothing. */
    lemma UncheckedActionDeniesNothing(action: Option<string>, identity: Option<string>, enforce: Enforce)
      requires action.None? || action.value !in CheckedActions
      ensures DenySet(action, identity, enforce) == {}
    {
    }

    /** A field excluded for an action is never denied for it, whatever the enforcer says. */
    lemma ExcludedNeverDenied(action: string, f: string, identity: Option<string>, enforce: Enforce)
      requires HonoursExclusion(nameLabel)
      requires f in GetList(permissionExclude, "all") || f in GetList(permissionExclude, action)
      ensures f !in DenySet(Some(action), identity, enforce)
    {
      ExcludedNeverChecked(action, f);
    }

    /** The key of this admin's storage in `request.scope`. */
    function CacheKey(): string
    {
      uniqueId + "_exclude_fields"
    }

    /** This admin's storage in a scope (`scope.get(key, {})`). */
    function CacheIn(scope: map<string, DenyCache>): DenyCache
    {
      if CacheKey() in scope then scope[CacheKey()] else map[]
    }

    /** The deny set a lookup answers with: the stored one if present, else a fresh one. */
    function Resolved(scope: map<string, DenyCache>, action: Option<string>, identity: Option<string>, enforce: Enforce): set<string>
    {
      if action in CacheIn(scope) then CacheIn(scope)[action] else DenySet(action, identity, enforce)
    }

    /** The scope after a lookup: unchanged on a hit, else with the fresh set stored. */
    function AfterLookup(scope: map<string, DenyCache>, action: Option<string>, identity: Option<string>, enforce: Enforce)
      : (s: map<string, DenyCache>)
      ensures CacheKey() in s && action in s[CacheKey()]
      ensures s[CacheKey()][action] == Resolved(scope, action, identity, enforce)
    {
      if action in CacheIn(scope) then scope
      else scope[CacheKey() := CacheIn(scope)[action := DenySet(action, identity, enforce)]]
    }

    /**
     * Memoisation: once a lookup has stored an action's set, every later lookup in the
     * same request answers that set and leaves the scope alone, whatever the enforcer
     * answers by then, and also when the stored set is empty.
     */
    lemma LookupMemoised(scope: map<string, DenyCache>, action: Option<string>, identity: Option<string>,
                         first: Enforce, later: Enforce)
      ensures var s := AfterLookup(scope, action, identity, first);
        && Resolved(s, action, identity, later) == Resolved(scope, action, identity, first)
        && AfterLookup(s, action, identity, later) == s
    {
    }

    /** A lookup stores nothing else: other actions' entries and other keys of the scope stay. */
    lemma LookupFrame(scope: map<string, DenyCache>, action: Option<string>, other: Option<string>,
                      identity: Option<string>, enforce: Enforce)
      requires other != action
      ensures var s := AfterLookup(scope, action, identity, enforce);
        && (other in CacheIn(s) <==> other in CacheIn(scope))
        && (other in CacheIn(scope) ==> CacheIn(s)[other] == CacheIn(scope)[other])
        && forall k :: k in scope && k != CacheKey() ==> k in s && s[k] == scope[k]
    {
    }

    /** `get_deny_fields`: the memoised lookup; the fresh set asks the enforcer once per field. */
    method GetDenyFields(request: Request, action: Option<string>, enforce: Enforce) returns (fields: set<string>)
      requires Valid()
      modifies this`fieldsCache, request`scope
      ensures Valid() && old(fieldsCache).Keys <= fieldsCache.Keys
      ensures fields == Resolved(old(request.scope), action, request.identity, enforce)
      ensures request.scope == AfterLookup(old(request.scope), action, request.identity, enforce)
    {
      var requestCache := CacheIn(request.scope);
      if action in requestCache {
        return requestCache[action];
      }
      var checkFields: set<string> := {};
      if action.Some? && action.value in CheckedActions {
        var byField := CachedPermissionFields(action.value);
        checkFields := byField.Keys;
      }
      fields := {};
      var remaining := checkFields;
      while remaining != {}
        invariant remaining <= checkFields
        invariant fields == set f | f in checkFields - remaining && !HasFieldPermission(request.identity, uniqueId, f, action, enforce)
        decreases remaining
      {
        var f :| f in remaining;
        if !HasFieldPermission(request.identity, uniqueId, f, action, enforce) {
          fields := fields + {f};
        }
        remaining := remaining - {f};
      }
      requestCache := requestCache[action := fields];
      request.scope := request.scope[CacheKey() := requestCache];
    }

    /** `on_list_after`: every listed item loses the fields denied for `list`. */
    method OnListAfter<V>(request: Request, items: seq<map<string, V>>, enforce: Enforce) returns (out: seq<map<string, V>>)
      requires Valid()
      modifies this`fieldsCache, request`scope
      ensures Valid()
      ensures request.scope == AfterLookup(old(request.scope), Some("list"), request.identity, enforce)
      ensures |out| == |items|
      ensures forall i :: 0 <= i < |items| ==>
        out[i] == items[i] - Resolved(old(request.scope), Some("list"), request.identity, enforce)
    {
      var exclude := GetDenyFields(request, Some("list"), enforce);
      out := [];
      var i := 0;
      while i < |items|
        invariant 0 <= i <= |items|
        invariant |out| == i
        invariant forall k :: 0 <= k < i ==> out[k] == items[k] - exclude
      {
        out := out + [items[i] - exclude];
        i := i + 1;
      }
    }

    /**
     * `on_filter_pre`: empty or missing criteria pass through untouched, without a
     * lookup; otherwise exactly the keys denied for `filter` are dropped.
     */
    method OnFilterPre<V>(request: Request, data: Option<map<string, V>>, enforce: Enforce) returns (out: Option<map<string, V>>)
      requires Valid()
      modifies this`fieldsCache, request`scope
      ensures Valid()
      ensures data.None? || data.value == map[] ==> out == data && request.scope == old(request.scope)
      ensures data.Some? && data.value != map[] ==>
        && request.scope == AfterLookup(old(request.scope), Some("filter"), request.identity, enforce)
        && var exclude := Resolved(old(request.scope), Some("filter"), request.identity, enforce);
        && out.Some?
        && (forall k :: k in out.value <==> k in data.value && k !in exclude)
        && (forall k :: k in out.value ==> out.value[k] == data.value[k])
    {
      if data.None? || data.value == map[] {
        return data;
      }
      var exclude := GetDenyFields(request, Some("filter"), enforce);
      out := Some(map k | k in data.value && k !in exclude :: data.value[k]);
    }

    /** `on_create_pre`: the payload without the fields denied for `create`. */
    method OnCreatePre<V>(request: Request, obj: map<string, V>, enforce: Enforce) returns (data: map<string, V>)
      requires Valid()
      modifies this`fieldsCache, request`scope
      ensures Valid()
      ensures request.scope == AfterLookup(old(request.scope), Some("create"), request.identity, enforce)
      ensures data == obj - Resolved(old(request.scope), Some("create"), request.identity, enforce)
    {
      var exclude := GetDenyFields(request, Some("create"), enforce);
      data := obj - exclude;
    }

    /** `on_update_pre`: the payload without the fields denied for `update`; the ids pass through. */
    method OnUpdatePre<V>(request: Request, obj: map<string, V>, itemId: seq<string>, enforce: Enforce)
      returns (data: map<string, V>, ids: seq<string>)
      requires Valid()
      modifies this`fieldsCache, request`scope
      ensures Valid()
      ensures request.scope == AfterLookup(old(request.scope), Some("update"), request.identity, enforce)
      ensures data == obj - Resolved(old(request.scope), Some("update"), request.identity, enforce)
      ensures ids == itemId
    {
      var exclude := GetDenyFields(request, Some("update"), enforce);
      data := obj - exclude;
      ids := itemId;
    }

    /** `on_read_after`: the item without the fields denied for `read`. */
    method OnReadAfter<V>(request: Request, obj: map<string, V>, enforce: Enforce) returns (out: map<string, V>)
      requires Valid()
      modifies this`fieldsCache, request`scope
      ensures Valid()
      ensures request.scope == AfterLookup(old(request.scope), Some("read"), request.identity, enforce)
      ensures out == obj - Resolved(old(request.scope), Some("read"), request.identity, enforce)
    {
      var exclude := GetDenyFields(request, Some("read"), enforce);
      out := obj - exclude;
    }

    /**
     * `route_read`: refused by the read gate, the no-permission error; otherwise every
     * loaded item loses the fields denied for `read` (one lookup, then hits), and a
     * single item is unwrapped.
     */
    method RouteRead<V>(request: Request, itemId: seq<string>, hasReadPermission: bool,
                        items: seq<map<string, V>>, enforce: Enforce)
      returns (r: Result<ReadData<V>, ApiError>)
      requires Valid()
      modifies this`fieldsCache, request`scope
      ensures Valid()
      ensures !hasReadPermission ==> r == Failure(NoPermission) && request.scope == old(request.scope)
      ensures hasReadPermission ==>
        var exclude := Resolved(old(request.scope), Some("read"), request.identity, enforce);
        && r.Success?
        && (|items| == 1 ==> r.value == Single(items[0] - exclude))
        && (|items| != 1 ==>
              && r.value.Many? && |r.value.items| == |items|
              && forall i :: 0 <= i < |items| ==> r.value.items[i] == items[i] - exclude)
      ensures hasReadPermission && |items| == 0 ==> request.scope == old(request.scope)
      ensures hasReadPermission && |items| > 0 ==>
        request.scope == AfterLookup(old(request.scope), Some("read"), request.identity, enforce)
    {
      if !hasReadPermission {
        return Failure(NoPermission);
      }
      ghost var scope0 := request.scope;
      ghost var exclude := Resolved(scope0, Some("read"), request.identity, enforce);
      var out: seq<map<string, V>> := [];
      var i := 0;
      while i < |items|
        invariant 0 <= i <= |items|
        invariant Valid()
        invariant |out| == i
        invariant forall k :: 0 <= k < i ==> out[k] == items[k] - exclude
        invariant i == 0 ==> request.scope == scope0
        invariant i > 0 ==> request.scope == AfterLookup(scope0, Some("read"), request.identity, enforce)
      {
        LookupMemoised(scope0, Some("read"), request.identity, enforce, enforce);
        var item := OnReadAfter(request, items[i], enforce);
        out := out + [item];
        i := i + 1;
      }
      if |out| == 1 {
        r := Success(Single(out[0]));
      } else {
        r := Success(Many(out));
      }
    }

    /**
     * `get_form_item`: nothing for a field denied for the form's action (`filter` when
     * the action is `list`), else what the default generation builds.
     */
    method GetFormItem<W>(request: Request, field: Field, action: string, built: Option<W>, enforce: Enforce)
      returns (item: Option<W>)
      requires Valid()
      modifies this`fieldsCache, request`scope
      ensures Valid()
      ensures var act := if action == "list" then "filter" else action;
        && request.scope == AfterLookup(old(request.scope), Some(act), request.identity, enforce)
        && item == (if AliasOrName(field) in Resolved(old(request.scope), Some(act), request.identity, enforce) then None else built)
    {
      var act := if action == "list" then "filter" else action;
      var exclude := GetDenyFields(request, Some(act), enforce);
      var name := AliasOrName(field);
      if name in exclude {
        return None;
      }
      item := built;
    }

    /** `get_list_column`: nothing for a field denied for `list`, else the default column. */
    method GetListColumn<W>(request: Request, field: Field, built: Option<W>, enforce: Enforce)
      returns (column: Option<W>)
      requires Valid()
      modifies this`fieldsCache, request`scope
      ensures Valid()
      ensures request.scope == AfterLookup(old(request.scope), Some("list"), request.identity, enforce)
      ensures column == (if AliasOrName(field) in Resolved(old(request.scope), Some("list"), request.identity, enforce) then None else built)
    {
      var exclude := GetDenyFields(request, Some("list"), enforce);
      var name := AliasOrName(field);
      if name in exclude {
        return None;
      }
      column := built;
    }
  }
}
