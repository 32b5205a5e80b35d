/**
 * The permission-option tree (fastapi_user_auth/utils.py): one option per visible
 * admin page, with its actions or its sub-pages as children; pruning it by a
 * predicate; and the per-subject view with the super-user bypass.
 *
 * Options are values here. The source's option dictionaries are objects that
 * pruning overwrites in place, and the built tree is memoised per group, so the
 * pruning done for one subject is seen by later callers of the memoised tree; the
 * model does not capture that sharing.
 */
module Options {
  import opened Wrappers
  import opened Strings
  import opened Permission
  import opened SystemUser
  import opened AdminTree
  import Policy

  /**
   * An option: label (`caption`), value, sort weight, whether it has the `children`
   * key, and the children (empty when the key is absent).
   */
  datatype Opt = Opt(caption: string, value: string, sort: Option<int>, hasChildren: bool, children: seq<Opt>)

  /** The sort key `p["sort"] or 0`. */
  function SortKey(o: Opt): int
  {
    o.sort.GetOr(0)
  }

  ghost predicate NonIncreasing(s: seq<Opt>)
  {
    forall i, j :: 0 <= i < j < |s| ==> SortKey(s[i]) >= SortKey(s[j])
  }

  /** Inserts `o` into a list after every leading element whose key is at least its own. */
  function Insert(o: Opt, s: seq<Opt>): (r: seq<Opt>)
    ensures multiset(r) == multiset(s) + multiset{o}
    ensures |r| == |s| + 1 && (r[0] == o || (|s| > 0 && r[0] == s[0]))
  {
    if |s| == 0 then [o]
    else if SortKey(s[0]) >= SortKey(o) then
      assert s == [s[0]] + s[1..];
      [s[0]] + Insert(o, s[1..])
    else [o] + s
  }

  /** Inserting into a non-increasing list keeps it non-increasing. */
  lemma {:induction false} InsertSorted(o: Opt, s: seq<Opt>)
    requires NonIncreasing(s)
    ensures NonIncreasing(Insert(o, s))
  {
    if |s| > 0 && SortKey(s[0]) >= SortKey(o) {
      var rest := Insert(o, s[1..]);
      InsertSorted(o, s[1..]);
      assert SortKey(rest[0]) <= SortKey(s[0]);
      var r := [s[0]] + rest;
      forall i, j | 0 <= i < j < |r|
        ensures SortKey(r[i]) >= SortKey(r[j])
      {
        if i > 0 {
          assert r[i] == rest[i - 1] && r[j] == rest[j - 1];
        } else if j > 1 {
          assert r[j] == rest[j - 1];
          assert SortKey(rest[0]) >= SortKey(rest[j - 1]);
        }
      }
    }
  }

  /**
   * `options.sort(key=lambda p: p["sort"] or 0, reverse=True)`: a stable sort by
   * non-increasing key; the result is a permutation of the input.
   */
  function SortOptions(s: seq<Opt>): (r: seq<Opt>)
    ensures multiset(r) == multiset(s)
    ensures NonIncreasing(r)
  {
    if |s| == 0 then []
    else
      assert s == s[..|s| - 1] + [s[|s| - 1]];
      var sorted := SortOptions(s[..|s| - 1]);
      InsertSorted(s[|s| - 1], sorted);
      Insert(s[|s| - 1], sorted)
  }

  /** The option of a registered action. */
  function ActionEntry(uniqueId: string, action: AdminAction): Opt
  {
    Opt(action.caption, Encode([uniqueId, "admin:" + action.name]), None, false, [])
  }

  /** The options of the registered actions, in registration order. */
  function ActionEntries(uniqueId: string, t: ActionTable): (r: seq<Opt>)
    ensures |r| == |t|
    ensures forall i :: 0 <= i < |t| ==> r[i] == ActionEntry(uniqueId, t[i].1)
  {
    seq(|t|, i requires 0 <= i < |t| => ActionEntry(uniqueId, t[i].1))
  }

  /** The built-in first child: the list entry of a model admin, the submit entry of a form admin. */
  function BuiltinEntries(a: Admin): seq<Opt>
    requires a.IsActionAdmin()
  {
    if a.ModelAdmin? then [Opt("查看列表", Encode([a.uniqueId, "admin:list"]), None, false, [])]
    else if "submit" !in TableKeys(a.actions) then [Opt("提交", Encode([a.uniqueId, "admin:submit"]), None, false, [])]
    else []
  }

  /** The option of one admin that has a page schema. */
  function OptionItem(a: Admin): Opt
    requires a.pageSchema.Some?
    decreases a, 2
  {
    var children :=
      if a.IsActionAdmin() then BuiltinEntries(a) + ActionEntries(a.uniqueId, a.actions)
      else if a.AdminGroup? then ActionOptions(a)
      else [];
    Opt(a.pageSchema.value.caption, Encode([a.uniqueId, PagePrefix]), a.pageSchema.value.sort, !a.PageAdmin?, children)
  }

  /** The options of `admins` before sorting: admins without a page schema are skipped. */
  function Items(admins: seq<Admin>): seq<Opt>
    decreases admins, 0
  {
    if |admins| == 0 then []
    else
      var a := admins[|admins| - 1];
      Items(admins[..|admins| - 1]) + (if a.pageSchema.Some? then [OptionItem(a)] else [])
  }

  /** `get_admin_action_options(group)`. */
  function ActionOptions(group: Admin): seq<Opt>
    requires group.AdminGroup?
    decreases group, 1
  {
    SortOptions(Items(group.admins))
  }

  /** The method form of `get_admin_action_options`: the loop over the group, then the sort. */
  method GetAdminActionOptions(group: Admin) returns (options: seq<Opt>)
    requires group.AdminGroup?
    ensures options == ActionOptions(group)
    decreases group, 1
  {
    options := [];
    var i := 0;
    while i < |group.admins|
      invariant 0 <= i <= |group.admins|
      invariant options == Items(group.admins[..i])
    {
      var admin := group.admins[i];
      assert group.admins[..i + 1][..i] == group.admins[..i];
      if admin.pageSchema.Some? {
        var item := BuildItem(admin);
        options := options + [item];
      }
      i := i + 1;
    }
    assert group.admins[..i] == group.admins;
    if |options| > 0 {
      options := SortOptions(options);
    }
  }

  /** The loop body of `get_admin_action_options` for one admin with a page schema. */
  method BuildItem(admin: Admin) returns (item: Opt)
    requires admin.pageSchema.Some?
    ensures item == OptionItem(admin)
    decreases admin, 2
  {
    var children: seq<Opt> := [];
    if admin.IsActionAdmin() {
      children := ActionChildren(admin);
    } else if admin.AdminGroup? {
      children := GetAdminActionOptions(admin);
    }
    item := Opt(admin.pageSchema.value.caption, Encode([admin.uniqueId, PagePrefix]), admin.pageSchema.value.sort,
                !admin.PageAdmin?, children);
  }

  /** The children of a model or form admin: the built-in entry, then one per registered action. */
  method ActionChildren(admin: Admin) returns (children: seq<Opt>)
    requires admin.IsActionAdmin()
    ensures children == BuiltinEntries(admin) + ActionEntries(admin.uniqueId, admin.actions)
  {
    var builtin := BuiltinEntries(admin);
    var uid, actions := admin.uniqueId, admin.actions;
    children := builtin;
    var j := 0;
    while j < |actions|
      invariant 0 <= j <= |actions|
      invariant children == builtin + ActionEntries(uid, actions[..j])
    {
      ActionEntriesSnoc(uid, actions, j);
      children := children + [ActionEntry(uid, actions[j].1)];
      j := j + 1;
    }
    assert actions[..j] == actions;
  }

  /** One more registered action adds one entry at the end. */
  lemma ActionEntriesSnoc(uniqueId: string, t: ActionTable, j: nat)
    requires j < |t|
    ensures ActionEntries(uniqueId, t[..j + 1]) == ActionEntries(uniqueId, t[..j]) + [ActionEntry(uniqueId, t[j].1)]
  {
    var a := ActionEntries(uniqueId, t[..j + 1]);
    var b := ActionEntries(uniqueId, t[..j]) + [ActionEntry(uniqueId, t[j].1)];
    assert |a| == |b|;
    forall i | 0 <= i < |a|
      ensures a[i] == b[i]
    {
      assert t[..j + 1][i] == t[i];
    }
  }

  /** Every option of a group comes from a visible admin of it, and every visible admin has one. */
  lemma ItemsExact(admins: seq<Admin>, o: Opt)
    ensures o in Items(admins) <==> exists a :: a in admins && a.pageSchema.Some? && o == OptionItem(a)
  {
    if o in Items(admins) {
      var a := ItemsSound(admins, o);
    }
    if exists a :: a in admins && a.pageSchema.Some? && o == OptionItem(a) {
      var a :| a in admins && a.pageSchema.Some? && o == OptionItem(a);
      ItemsComplete(admins, a);
    }
  }

  /** Every option of the list comes from an admin `a` of it that has a page schema. */
  lemma {:induction false} ItemsSound(admins: seq<Admin>, o: Opt) returns (a: Admin)
    requires o in Items(admins)
    ensures a in admins && a.pageSchema.Some? && o == OptionItem(a)
    decreases admins
  {
    var init := admins[..|admins| - 1];
    var last := admins[|admins| - 1];
    assert admins == init + [last];
    if o in Items(init) {
      a := ItemsSound(init, o);
    } else {
      a := last;
    }
  }

  /** Every admin of the list that has a page schema contributes its option. */
  lemma {:induction false} ItemsComplete(admins: seq<Admin>, a: Admin)
    requires a in admins && a.pageSchema.Some?
    ensures OptionItem(a) in Items(admins)
    decreases admins
  {
    var init := admins[..|admins| - 1];
    var last := admins[|admins| - 1];
    assert admins == init + [last];
    if a != last {
      assert a in init;
      ItemsComplete(init, a);
    }
  }

  /**
   * `get_admin_action_options`: siblings come sorted by non-increasing weight
   * (`None` as 0), and the options are exactly those of the admins that have a page
   * schema.
   */
  lemma ActionOptionsSpec(group: Admin, o: Opt)
    requires group.AdminGroup?
    ensures NonIncreasing(ActionOptions(group))
    ensures o in ActionOptions(group) <==>
      exists a :: a in group.admins && a.pageSchema.Some? && o == OptionItem(a)
  {
    ItemsExact(group.admins, o);
    assert o in ActionOptions(group) <==> o in multiset(Items(group.admins));
  }

  /**
   * An option's value is the encoded `(unique_id, "admin:page")`, which decodes back
   * to the id and the page key padded to five fields.
   */
  lemma OptionItemValue(a: Admin)
    requires a.pageSchema.Some?
    ensures OptionItem(a).value == Encode([a.uniqueId, PagePrefix])
    ensures NoSeparator([a.uniqueId, PagePrefix], Sep) ==>
      Decode(OptionItem(a).value) == [a.uniqueId, PagePrefix, "", "", ""]
  {
    if NoSeparator([a.uniqueId, PagePrefix], Sep) {
      DecodeEncode([a.uniqueId, PagePrefix]);
    }
  }

  /** The option of a model or form admin: built-in entry, then action entries. */
  lemma ActionAdminItem(a: Admin)
    requires a.pageSchema.Some? && a.IsActionAdmin()
    ensures OptionItem(a).hasChildren
    ensures OptionItem(a).children == BuiltinEntries(a) + ActionEntries(a.uniqueId, a.actions)
  {
  }

  /** A model admin's children are the list entry followed by one entry per registered action. */
  lemma ModelAdminChildren(a: Admin)
    requires a.pageSchema.Some? && a.ModelAdmin?
    ensures OptionItem(a).hasChildren
    ensures |OptionItem(a).children| == |a.actions| + 1
    ensures OptionItem(a).children[0].caption == "查看列表"
    ensures OptionItem(a).children[0].value == Encode([a.uniqueId, "admin:list"])
    ensures forall i :: 0 <= i < |a.actions| ==> OptionItem(a).children[i + 1] == ActionEntry(a.uniqueId, a.actions[i].1)
  {
    ActionAdminItem(a);
    var entries := ActionEntries(a.uniqueId, a.actions);
    var first := Opt("查看列表", Encode([a.uniqueId, "admin:list"]), None, false, []);
    assert BuiltinEntries(a) == [first];
    var cs := OptionItem(a).children;
    assert cs == [first] + entries;
    assert forall i :: 0 <= i < |a.actions| ==> cs[i + 1] == entries[i];
  }

  /** A form admin's children are the submit entry unless `submit` is registered, then its actions. */
  lemma FormAdminChildren(a: Admin)
    requires a.pageSchema.Some? && a.FormAdmin?
    ensures OptionItem(a).hasChildren
    ensures var k := if "submit" in TableKeys(a.actions) then 0 else 1;
      && |OptionItem(a).children| == |a.actions| + k
      && (k == 1 ==> OptionItem(a).children[0].caption == "提交")
      && (k == 1 ==> OptionItem(a).children[0].value == Encode([a.uniqueId, "admin:submit"]))
      && forall i :: 0 <= i < |a.actions| ==> OptionItem(a).children[i + k] == ActionEntry(a.uniqueId, a.actions[i].1)
  {
    ActionAdminItem(a);
    var cs := OptionItem(a).children;
    var entries := ActionEntries(a.uniqueId, a.actions);
    if "submit" in TableKeys(a.actions) {
      assert cs == entries;
    } else {
      assert cs == [Opt("提交", Encode([a.uniqueId, "admin:submit"]), None, false, [])] + entries;
      assert forall i :: 0 <= i < |a.actions| ==> cs[i + 1] == entries[i];
    }
  }

  /** A group's children are its own sorted options; any other page has no `children` key. */
  lemma GroupAndPageChildren(a: Admin)
    requires a.pageSchema.Some? && (a.AdminGroup? || a.PageAdmin?)
    ensures a.AdminGroup? ==> OptionItem(a).hasChildren && OptionItem(a).children == ActionOptions(a)
    ensures a.PageAdmin? ==> !OptionItem(a).hasChildren && OptionItem(a).children == []
  {
  }

  // ---------------------------------------------------------------- filtering

  /** The option with its non-empty children pruned (`option["children"] = filter_options(...)`). */
  function Prune(o: Opt, keep: Opt -> bool): Opt
    decreases o
  {
    if |o.children| > 0 then o.(children := Filtered(o.children, keep))
    else o
  }

  /** `filter_options`: the options that pass `keep`, in order, each pruned. */
  function Filtered(options: seq<Opt>, keep: Opt -> bool): seq<Opt>
    decreases options
  {
    if |options| == 0 then []
    else
      var o := options[|options| - 1];
      var before := Filtered(options[..|options| - 1], keep);
      if keep(o) then before + [Prune(o, keep)] else before
  }

  /** The method form of `filter_options`: a loop that builds the result, recursing into children. */
  method FilterOptions(options: seq<Opt>, keep: Opt -> bool) returns (result: seq<Opt>)
    ensures result == Filtered(options, keep)
    decreases options
  {
    result := [];
    var i := 0;
    while i < |options|
      invariant 0 <= i <= |options|
      invariant result == Filtered(options[..i], keep)
    {
      var option := options[i];
      assert options[..i + 1][..i] == options[..i];
      if keep(option) {
        if |option.children| > 0 {
          var sub := FilterOptions(option.children, keep);
          option := option.(children := sub);
        }
        result := result + [option];
      }
      i := i + 1;
    }
    assert options[..i] == options;
  }

  /** The plain order-preserving selection of the options that pass `keep`. */
  function Kept(options: seq<Opt>, keep: Opt -> bool): (r: seq<Opt>)
    ensures forall o :: o in r <==> o in options && keep(o)
  {
    if |options| == 0 then []
    else
      var o := options[|options| - 1];
      Kept(options[..|options| - 1], keep) + (if keep(o) then [o] else [])
  }

  /**
   * `filter_options` returns, in the original order, exactly the options whose own
   * predicate holds, each with its children pruned in turn.
   */
  lemma {:induction false} FilteredIsKeptPruned(options: seq<Opt>, keep: Opt -> bool)
    ensures |Filtered(options, keep)| == |Kept(options, keep)|
    ensures forall k :: 0 <= k < |Kept(options, keep)| ==>
      Filtered(options, keep)[k] == Prune(Kept(options, keep)[k], keep)
  {
    if |options| > 0 {
      FilteredIsKeptPruned(options[..|options| - 1], keep);
    }
  }

  /** Every option anywhere in the tree passes `keep`. */
  ghost predicate AllKeep(options: seq<Opt>, keep: Opt -> bool)
    decreases options
  {
    forall i :: 0 <= i < |options| ==>
      keep(options[i]) && AllKeep(options[i].children, keep)
  }

  /**
   * A rejected option disappears with its whole subtree: every option that survives
   * anywhere in the per-subject tree has its value among the permissions.
   */
  lemma {:induction false} FilteredAllKeep(options: seq<Opt>, permissions: set<string>)
    ensures AllKeep(Filtered(options, ValueIn(permissions)), ValueIn(permissions))
    decreases options
  {
    var keep := ValueIn(permissions);
    if |options| > 0 {
      var o := options[|options| - 1];
      var before := Filtered(options[..|options| - 1], keep);
      FilteredAllKeep(options[..|options| - 1], permissions);
      if keep(o) {
        if |o.children| > 0 {
          FilteredAllKeep(o.children, permissions);
        }
        var r := before + [Prune(o, keep)];
        forall i | 0 <= i < |r|
          ensures keep(r[i]) && AllKeep(r[i].children, keep)
        {
          if i < |before| { assert r[i] == before[i]; }
        }
      }
    }
  }

  /** A tree whose every option passes is left as it is; hence filtering twice is filtering once. */
  lemma {:induction false} FilteredAllKeepIdentity(options: seq<Opt>, keep: Opt -> bool)
    requires AllKeep(options, keep)
    ensures Filtered(options, keep) == options
    decreases options
  {
    if |options| > 0 {
      var o := options[|options| - 1];
      var init := options[..|options| - 1];
      assert AllKeep(init, keep) by {
        forall i | 0 <= i < |init|
          ensures keep(init[i]) && AllKeep(init[i].children, keep)
        {
          assert init[i] == options[i];
        }
      }
      FilteredAllKeepIdentity(init, keep);
      if |o.children| > 0 {
        FilteredAllKeepIdentity(o.children, keep);
      }
      assert options == init + [o];
    }
  }

  lemma FilteredIdempotent(options: seq<Opt>, permissions: set<string>)
    ensures Filtered(Filtered(options, ValueIn(permissions)), ValueIn(permissions)) == Filtered(options, ValueIn(permissions))
  {
    FilteredAllKeep(options, permissions);
    FilteredAllKeepIdentity(Filtered(options, ValueIn(permissions)), ValueIn(permissions));
  }

  /** The predicate of the per-subject view: the option's value is a permission of the subject. */
  function ValueIn(permissions: set<string>): Opt -> bool
  {
    (o: Opt) => o.value in permissions
  }

  /**
   * An allowed descendant does not rescue a rejected ancestor: a page the subject
   * may not see is dropped even when one of its actions is allowed.
   */
  lemma RejectedParentDropsAllowedChild(parent: string, child: string)
    requires parent != child
    ensures Filtered([Opt("p", parent, None, true, [Opt("c", child, None, false, [])])], ValueIn({child})) == []
  {
    var options := [Opt("p", parent, None, true, [Opt("c", child, None, false, [])])];
    assert options[..0] == [];
  }

  /**
   * The per-subject view: the whole tree for the super-user, otherwise the tree
   * filtered by the values among the subject's implicit permissions (the engine's
   * answer for the subject is `implicitRules`).
   */
  function OptionsBySubject(subject: string, group: Admin, implicitRules: set<Policy.Rule>): seq<Opt>
    requires group.AdminGroup?
  {
    if subject == UserPrefix + Root then ActionOptions(group)
    else Filtered(ActionOptions(group), ValueIn(Policy.SubjectPermissions(implicitRules)))
  }

  /** `get_admin_action_options_by_subject`: the built tree, filtered unless the subject is the super-user. */
  method GetAdminActionOptionsBySubject(e: Policy.Enforcer, subject: string, group: Admin, implicitRules: set<Policy.Rule>)
    returns (options: seq<Opt>)
    requires group.AdminGroup?
    ensures options == OptionsBySubject(subject, group, implicitRules)
  {
    options := GetAdminActionOptions(group);
    if subject != UserPrefix + Root {
      var permissions := Policy.GetSubjectPermissions(e, subject, true, implicitRules);
      options := FilterOptions(options, ValueIn(permissions));
    }
  }

  /**
   * The super-user's view does not depend on the policy rules: whatever the engine
   * holds, it has one option per admin of the group that has a page schema.
   */
  lemma RootSeesEverything(group: Admin, implicitRules: set<Policy.Rule>, o: Opt)
    requires group.AdminGroup?
    ensures o in OptionsBySubject(UserPrefix + Root, group, implicitRules) <==>
      exists a :: a in group.admins && a.pageSchema.Some? && o == OptionItem(a)
  {
    ActionOptionsSpec(group, o);
  }

  /**
   * Any other subject sees only what it holds: every option, at every depth of its
   * view, has its value among the subject's implicit permissions.
   */
  lemma SubjectSeesOnlyGranted(subject: string, group: Admin, implicitRules: set<Policy.Rule>)
    requires group.AdminGroup? && subject != UserPrefix + Root
    ensures var permissions := Policy.SubjectPermissions(implicitRules);
      AllKeep(OptionsBySubject(subject, group, implicitRules), ValueIn(permissions))
  {
    FilteredAllKeep(ActionOptions(group), Policy.SubjectPermissions(implicitRules));
  }
}
