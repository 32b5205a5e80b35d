# fastapi-user-auth permission core, modelled in Dafny

fastapi-user-auth adds role-based access control to the admin site of
fastapi-amis-admin. The policy engine (Casbin) holds three relations:

- `p`: permission rules, each a subject followed by five fields;
- `g`: user-to-role groupings;
- `g2`: parent-to-child groupings of admin pages.

This project models the code that connects the admin site to that engine:

- **Action keys.** `encode_admin_action` maps an admin action name to a key in
  the hierarchy `admin:page`, `admin:page:<verb>`, `admin:page:action:<name>`.
- **Permission strings.** `casbin_permission_encode` and
  `casbin_permission_decode` turn a rule (without its subject) into one
  `#`-joined string and back, padding to five fields.
- **The option tree.** `get_admin_action_options` builds one option per visible
  page: its actions, or its sub-pages, are its children, and siblings are sorted
  by weight. `filter_options` prunes the tree by a predicate.
  `get_admin_action_options_by_subject` shows the super-user the whole tree and
  any other subject the tree pruned to its implicit permissions.
- **Field rows.** `admin_schema_fields_rows` and `get_admin_action_fields_rows`
  list the field-level permission rows of a page.
- **Store updates.** `casbin_update_subject_permissions`,
  `casbin_update_subject_roles` and `casbin_update_site_grouping` replace a
  subject's rules, a subject's roles and the page hierarchy in the store.
  `get_admin_grouping` computes that hierarchy.
- **`AuthModelAdmin`.** It computes, per action, the fields to check. It asks
  the engine which of them the current user is denied, and memoises the answer
  in the request scope. Its hooks strip the denied fields from filters,
  payloads, read results, list items, form items and list columns.
- **`ReadOnlyModelAdmin`.** It unregisters the write actions and refuses every
  write.

Module layout:

| Module | What it models |
|---|---|
| `Strings` | Python's `str.split` and `str.join` |
| `Permission` | action keys and the permission-string codec |
| `AdminTree` | the admin hierarchy as a datatype |
| `Grouping` | `get_admin_grouping` |
| `Policy` | the engine's store as a class, and the three update procedures |
| `Options` | the option tree, its filter and the per-subject view |
| `FieldRows` | field permission rows |
| `AuthAdmin` | `AuthModelAdmin` and the request scope, as classes |
| `ReadOnly` | `ReadOnlyModelAdmin` |

Loops in the source that build a result step by step are methods with loop
invariants. Each such method is proved equal to a specification function, and
the properties are proved as lemmas about those functions. The exception is
`get_admin_grouping`: its loop only extends a list with recursive calls, so it
is modelled as the recursive function `Grouping.AdminGrouping`. The dispatch of
`get_admin_action_fields_rows`, which has no loop, is the function
`FieldRows.ActionFieldsRows`.

Points where the model settles a question:

- `filter_options` follows the code: an option is kept only if its own value
  passes. An allowed child therefore does not keep a rejected parent; see
  `Options.RejectedParentDropsAllowedChild`. An option whose children all
  vanish is kept with empty children, although the function's comment says
  such an option is deleted.
- `casbin_update_subject_roles` declares `role_keys=None` as its default.
  Splitting `None` raises before the store is touched, and
  `Policy.UpdateSubjectRoles` models that path as `raised`.

## Model

| member | source | states |
|---|---|---|
| Permission.EncodeAdminAction | fastapi_user_auth/utils.py:13-25 | every action key lies below `admin:page`; every key other than that of `page` lies strictly below `admin:page:`; only `page` maps to `admin:page` itself |
| Permission.AdminActionRoundTrip | fastapi_user_auth/utils.py:13-25 | decoding the key of any action name gives that name back, so the three key families do not collide |
| Permission.AdminActionDecodeSound | fastapi_user_auth/utils.py:13-25 | a key decodes to an action only if that action encodes to exactly this key |
| Permission.AdminActionInjective | fastapi_user_auth/utils.py:13-25 | two action names with the same key are the same name |
| Permission.Pad | fastapi_user_auth/utils.py:150-151 | pads to at least five fields with empty strings, keeps every given value in place, never truncates |
| Permission.Encode | fastapi_user_auth/utils.py:147-152 | an encoded permission always has at least four `#` separators, i.e. at least five fields |
| Permission.Decode | fastapi_user_auth/utils.py:156-162 | a decoded permission has at least five fields, none containing `#`; it has exactly five when the input has fewer than four `#`, else one field per piece |
| Permission.DecodeEncode | fastapi_user_auth/utils.py:147-162 | round trip: values without `#` are recovered by decode after encode, padded to five fields |
| Permission.EncodeDecode | fastapi_user_auth/utils.py:147-162 | encode after decode gives back the string, followed by one `#` per empty field that decoding added |
| Permission.EncodeDecodeWellFormed | fastapi_user_auth/utils.py:147-162 | a string with at least four `#` is a fixed point of encode after decode |
| Strings.JoinSplit | fastapi_user_auth/utils.py:152-158 | `sep.join(s.split(sep)) == s` for every string |
| Strings.SplitJoin | fastapi_user_auth/utils.py:152-158 | splitting a join of non-empty lists whose pieces lack the separator recovers the pieces |
| Strings.Split | fastapi_user_auth/utils.py:158 | splitting yields one more piece than there are separators, and no piece contains the separator |
| Grouping.AdminGrouping | fastapi_user_auth/utils.py:213-221 | the edge list holds exactly the `(app id, own id)` pairs of the admins the walk reaches: admins that are their own app are skipped, and groups are descended into |
| Grouping.EdgesExact | fastapi_user_auth/utils.py:213-221 | an edge is listed exactly when it is `(app id, own id)` of an admin the walk reaches; admins that are their own app are skipped, and groups are descended into |
| Policy.GetSubjectPermissions | fastapi_user_auth/utils.py:165-171 | the result is the set of rules, without their subject, re-encoded; the non-implicit form reads exactly the subject's own `p` rules |
| Policy.UpdateSubjectPermissions | fastapi_user_auth/utils.py:192-209 | the subject's rules are replaced by the decoded permissions, other rules and `g`/`g2` stay, and the input list is returned unchanged |
| Policy.PermissionsAfterSubject | fastapi_user_auth/utils.py:192-209 | afterwards the subject's rules are exactly the decoded permissions prefixed with the subject |
| Policy.PermissionsAfterOthers | fastapi_user_auth/utils.py:192-209 | every other subject's rules are unchanged |
| Policy.PermissionsReadBack | fastapi_user_auth/utils.py:165-209 | reading the subject's permissions back yields the re-encoded inputs, and exactly the inputs when each has five fields |
| Policy.UpdateSubjectRoles | fastapi_user_auth/utils.py:174-189 | with a role list, the subject's roles are deleted and the new ones added, and `p`/`g2` stay; with `None`, the call raises and changes nothing |
| Policy.RolesAfterExact | fastapi_user_auth/utils.py:176-189 | afterwards the subject's groupings are exactly `(subject, "r:"+role)` for the non-empty pieces of the list, and other subjects' groupings are unchanged |
| Policy.RolesAfterIdempotent | fastapi_user_auth/utils.py:174-189 | applying the same role list twice equals applying it once |
| Policy.RolesAfterEmpty | fastapi_user_auth/utils.py:176-189 | an empty role list leaves the subject without roles |
| Policy.RolesAfterTwo | fastapi_user_auth/utils.py:176 | the list `"a,b"` leaves exactly the roles `r:a` and `r:b` |
| Policy.UpdateSiteGrouping | fastapi_user_auth/utils.py:225-235 | `g2` becomes exactly the site's edge set, and `p`/`g` stay |
| Policy.SiteGroupingExact | fastapi_user_auth/utils.py:213-235 | after the update, `[parent, child]` is in `g2` exactly when the walk reaches an admin with that app id and own id |
| Options.Insert | fastapi_user_auth/utils.py:61 | inserting adds exactly the element, as a multiset |
| Options.InsertSorted | fastapi_user_auth/utils.py:61 | inserting into a non-increasing list keeps it non-increasing |
| Options.SortOptions | fastapi_user_auth/utils.py:60-61 | the sort is a permutation and orders by non-increasing `sort or 0` |
| Options.GetAdminActionOptions | fastapi_user_auth/utils.py:28-62 | the loop over the group, then the sort, computes the option tree of the group |
| Options.BuildItem | fastapi_user_auth/utils.py:39-58 | the per-admin loop body builds that admin's option |
| Options.ActionChildren | fastapi_user_auth/utils.py:44-56 | the children of a model or form admin are the built-in entry, then one entry per registered action in order |
| Options.ItemsExact | fastapi_user_auth/utils.py:34-59 | an option is produced exactly for each admin of the group that has a page schema |
| Options.ItemsSound | fastapi_user_auth/utils.py:34-59 | every produced option comes from an admin of the group with a page schema |
| Options.ItemsComplete | fastapi_user_auth/utils.py:34-59 | every admin with a page schema contributes its option |
| Options.ActionOptionsSpec | fastapi_user_auth/utils.py:28-62 | the options of a group are sorted non-increasingly by weight and are exactly those of its visible admins |
| Options.OptionItemValue | fastapi_user_auth/utils.py:39-43 | an option's value encodes `(unique_id, "admin:page")` and decodes back to it padded to five fields |
| Options.ModelAdminChildren | fastapi_user_auth/utils.py:44-56 | a model admin's children are the entry labelled "查看列表" for `admin:list`, then its actions in order |
| Options.FormAdminChildren | fastapi_user_auth/utils.py:44-56 | a form admin's children start with the entry labelled "提交" for `admin:submit` only when `submit` is not registered, then come its actions in order |
| Options.GroupAndPageChildren | fastapi_user_auth/utils.py:44-58 | a group's children are its own sorted options; any other page has no `children` key |
| Options.FilterOptions | fastapi_user_auth/utils.py:65-74 | the loop with recursion into non-empty children computes the filtered tree |
| Options.Kept | fastapi_user_auth/utils.py:68-70 | an option is selected exactly when it is in the list and passes the predicate |
| Options.FilteredIsKeptPruned | fastapi_user_auth/utils.py:65-74 | the filtered list is, in order, exactly the options that pass, each with its children filtered in turn |
| Options.FilteredAllKeep | fastapi_user_auth/utils.py:65-74 | after filtering by permissions, every option anywhere in the tree has its value among the permissions |
| Options.FilteredAllKeepIdentity | fastapi_user_auth/utils.py:65-74 | a tree whose every option passes is left unchanged |
| Options.FilteredIdempotent | fastapi_user_auth/utils.py:65-74 | filtering by permissions twice equals filtering once |
| Options.RejectedParentDropsAllowedChild | fastapi_user_auth/utils.py:68-72 | a rejected page is dropped even when one of its children is allowed |
| Options.GetAdminActionOptionsBySubject | fastapi_user_auth/utils.py:130-143 | computes the per-subject view: `u:root` gets the full tree; any other subject gets it filtered by the values of its implicit permissions |
| Options.RootSeesEverything | fastapi_user_auth/utils.py:137-139 | whatever the engine holds, the super-user's view has an option for every admin with a page schema, and only those |
| Options.SubjectSeesOnlyGranted | fastapi_user_auth/utils.py:139-142 | in any other subject's view, every option at every depth has its value among the subject's implicit permissions |
| FieldRows.RowCaption | fastapi_user_auth/utils.py:87-98 | a row's label is `<prefix>-<title or name>` for the seven prefixed actions and the bare title or name otherwise |
| FieldRows.SchemaRows | fastapi_user_auth/utils.py:77-105 | a missing schema gives no rows; otherwise one row per field, in order, keyed `<action>:<alias or name>` |
| FieldRows.AdminSchemaFieldsRows | fastapi_user_auth/utils.py:77-105 | the loop over the fields computes those rows |
| FieldRows.ActionFieldsRows | fastapi_user_auth/utils.py:108-127 | an action the admin kind does not handle, and any group or plain page, has no rows |
| FieldRows.ListRowsSpec | fastapi_user_auth/utils.py:115-117 | a model admin's `list` rows are its list-schema rows tagged `list:`, then its filter-schema rows tagged `filter:` |
| FieldRows.SchemaRowTagged | fastapi_user_auth/utils.py:99-103 | every row of a schema is tagged with its action |
| FieldRows.RowsTagged | fastapi_user_auth/utils.py:108-127 | every row offered for an action is tagged with that action; for `list` it may also be tagged `filter` |
| AuthAdmin.Excluded | fastapi_user_auth/mixins/admin.py:109-133 | a field is excluded for an action exactly when it is listed under `all` or under that action |
| AuthAdmin.Subject | fastapi_user_auth/mixins/admin.py:164-165 | the subject is `u:` plus the identity, or `u:guest` when there is none |
| AuthAdmin.FieldCheck | fastapi_user_auth/mixins/admin.py:162-166 | a field check asks about the admin's id with the field key `page:<action>:<field>`, an extension of the action key `page:<action>` |
| AuthAdmin.AuthModelAdmin.constructor | fastapi_user_auth/mixins/admin.py:101-105 | a missing exclusion configuration becomes the empty one, and no field list is cached yet |
| AuthAdmin.AuthModelAdmin.PermissionFields | fastapi_user_auth/mixins/admin.py:107-135 | each of the five checked actions asks the name-label function about its own schema and label prefix, with `exclude_required = true` and the `all`-plus-action exclusion list; any other action has no fields |
| AuthAdmin.AuthModelAdmin.ExcludedNeverChecked | fastapi_user_auth/mixins/admin.py:107-135 | a field excluded for an action is never among its checked fields |
| AuthAdmin.AuthModelAdmin.CachedPermissionFields | fastapi_user_auth/mixins/admin.py:137-160 | a cached field list, once computed, equals `get_permission_fields` of its action |
| AuthAdmin.AuthModelAdmin.DenySet | fastapi_user_auth/mixins/admin.py:174-187 | a field is denied exactly when it is checked for the action and the engine refuses it |
| AuthAdmin.AuthModelAdmin.UncheckedActionDeniesNothing | fastapi_user_auth/mixins/admin.py:174-187 | `None` or an unchecked action denies nothing |
| AuthAdmin.AuthModelAdmin.ExcludedNeverDenied | fastapi_user_auth/mixins/admin.py:107-191 | an excluded field is never denied, whatever the engine says |
| AuthAdmin.AuthModelAdmin.AfterLookup | fastapi_user_auth/mixins/admin.py:170-190 | after a lookup, the admin's scope entry holds the answer for the action |
| AuthAdmin.AuthModelAdmin.LookupMemoised | fastapi_user_auth/mixins/admin.py:168-191 | a later lookup in the same request returns the first answer, even an empty one and even if the engine changed, and leaves the scope as it is |
| AuthAdmin.AuthModelAdmin.LookupFrame | fastapi_user_auth/mixins/admin.py:168-191 | a lookup touches neither other actions' entries nor other scope keys |
| AuthAdmin.AuthModelAdmin.GetDenyFields | fastapi_user_auth/mixins/admin.py:168-191 | returns the memoised deny set, stores it under `<unique_id>_exclude_fields`, and keeps the cached field lists valid |
| AuthAdmin.AuthModelAdmin.OnListAfter | fastapi_user_auth/mixins/admin.py:193-198 | every list item loses exactly the fields denied for `list` |
| AuthAdmin.AuthModelAdmin.OnFilterPre | fastapi_user_auth/mixins/admin.py:200-205 | empty or missing filter data passes through without a lookup; otherwise exactly the keys denied for `filter` are dropped, and values stay |
| AuthAdmin.AuthModelAdmin.OnCreatePre | fastapi_user_auth/mixins/admin.py:207-211 | the payload loses exactly the fields denied for `create` |
| AuthAdmin.AuthModelAdmin.OnUpdatePre | fastapi_user_auth/mixins/admin.py:213-223 | the payload loses exactly the fields denied for `update`, and the ids pass through |
| AuthAdmin.AuthModelAdmin.OnReadAfter | fastapi_user_auth/mixins/admin.py:225-232 | the item loses exactly the fields denied for `read` |
| AuthAdmin.AuthModelAdmin.RouteRead | fastapi_user_auth/mixins/admin.py:234-248 | refusal gives the no-permission error and leaves the scope alone; otherwise each item loses the `read`-denied fields, and a single item is unwrapped |
| AuthAdmin.AuthModelAdmin.GetFormItem | fastapi_user_auth/mixins/admin.py:250-262 | a field denied for the form's action (`filter` for `list`) gets no form item; otherwise the default one |
| AuthAdmin.AuthModelAdmin.GetListColumn | fastapi_user_auth/mixins/admin.py:264-271 | a field denied for `list` gets no column; otherwise the default one |
| ReadOnly.RegisteredAdminActions | fastapi_user_auth/mixins/admin.py:24-31 | exactly the inherited entries whose key is not a write action remain, with unique keys preserved |
| ReadOnly.RegisteredIdempotent | fastapi_user_auth/mixins/admin.py:24-31 | filtering an already filtered table changes nothing |
| ReadOnly.RegisteredDistributes | fastapi_user_auth/mixins/admin.py:24-31 | the filter keeps order: filtering a concatenation concatenates the filtered parts |
| ReadOnly.HasCreatePermission | fastapi_user_auth/mixins/admin.py:33-34 | create is always refused |
| ReadOnly.HasUpdatePermission | fastapi_user_auth/mixins/admin.py:36-43 | update is always refused |
| ReadOnly.HasDeletePermission | fastapi_user_auth/mixins/admin.py:45-46 | delete is always refused |

## Left out

- Asynchrony: every coroutine is modelled as a sequential call.
- The policy engine's internals (matchers, role resolution, persistence, filtered reads) are not modelled.
  - Its store is three sets of rules.
  - Its batch add and remove calls are taken to be all-or-nothing.
  - The order of its answers is not modelled; a set replaces the returned list.
- `get_implicit_permissions_for_user` is a parameter, since it resolves roles inside the engine.
- `enforce` is a parameter, since it applies the engine's matcher.
- `get_schema_fields_name_label` is a parameter, since its body is outside the modelled files. `AuthAdmin.HonoursExclusion` states the one property the exclusion lemmas assume of it.
- `SystemUserEnum`, from fastapi_user_auth/auth/schemas.py, is not part of this model. `Root` is taken to be `"root"` and `Guest` to be `"guest"`.
- The current-user lookup is the `identity` of the request.
- `has_read_permission` is a parameter of `RouteRead`.
- `_read_items` and the database are parameters: `RouteRead` receives the loaded items.
- The `super()` hooks of the admin framework are taken to return their input.
  - The default form item and column are parameters.
  - Pydantic models become maps from field key to value, and `copy(exclude=...)` / `dict(exclude=...)` become map subtraction.
- Options.GetAdminActionOptions: the `lru_cache` on `get_admin_action_options` is not modelled.
  - `filter_options` overwrites `option["children"]` in the shared, memoised tree, so one subject's pruning is visible to later callers.
  - The model builds and filters values, so it captures neither that sharing nor the aliasing.
- Options.SortOptions: proved to be a permutation in non-increasing order of `sort or 0`. Its stability (equal keys keep their order, as in Python's `list.sort`) is implemented but not stated as a property.
- The `response` envelope (`BaseApiOut`) and the framework's error object are reduced to `Success`/`Failure(NoPermission)`.
- `AutoTimeModelAdmin`, `SoftDeleteModelAdmin`, `FootableModelAdmin` and `AuthFormAdmin` are not modelled; they configure or decorate the framework and make no permission decisions.
