/**
 * The policy-engine adapter of fastapi_user_auth/utils.py over an abstract store.
 *
 * The engine keeps three relations as sets of rules (a rule is a tuple of strings):
 * `p` (permissions: subject, then the permission's fields), `g` (role groupings:
 * subject, role) and `g2` (resource groupings: parent, child). Only the calls the
 * adapter makes are modelled; matching and role resolution are not.
 */
module Policy {
  import opened Wrappers
  import opened Strings
  import opened Permission
  import opened SystemUser
  import opened AdminTree
  import opened Grouping

  type Rule = seq<string>

  /** `rule` belongs to `subject`: its first field is the subject. */
  predicate Owns(rule: Rule, subject: string)
  {
    |rule| > 0 && rule[0] == subject
  }

  /** The rules of `rules` that belong to `subject` (the engine's filter on field 0). */
  function RulesOf(rules: set<Rule>, subject: string): (r: set<Rule>)
    ensures r <= rules
    ensures forall x :: x in r <==> x in rules && Owns(x, subject)
  {
    set x | x in rules && Owns(x, subject)
  }

  /** A rule without its first field (`permission[1:]`). */
  function Tail(rule: Rule): Rule
  {
    if |rule| == 0 then [] else rule[1..]
  }

  /** `casbin_get_subject_permissions`: each rule re-encoded without its subject. */
  function SubjectPermissions(rules: set<Rule>): set<string>
  {
    set x | x in rules :: Encode(Tail(x))
  }

  class Enforcer {
    var p: set<Rule>
    var g: set<Rule>
    var g2: set<Rule>

    constructor (p0: set<Rule>, g0: set<Rule>, g20: set<Rule>)
      ensures p == p0 && g == g0 && g2 == g20
    {
      p, g, g2 := p0, g0, g20;
    }

    /** `get_permissions_for_user`: the subject's own permission rules. */
    function PermissionsForUser(subject: string): (r: set<Rule>)
      reads this
      ensures r <= p
    {
      RulesOf(p, subject)
    }

    /** `remove_policies`: a batch is removed only if every rule of it is present. */
    method RemovePolicies(rules: set<Rule>) returns (ok: bool)
      modifies this`p
      ensures ok == (rules <= old(p))
      ensures p == if ok then old(p) - rules else old(p)
    {
      ok := rules <= p;
      if ok { p := p - rules; }
    }

    /** `add_policies`: a batch is added only if no rule of it is present yet. */
    method AddPolicies(rules: set<Rule>) returns (ok: bool)
      modifies this`p
      ensures ok == (rules !! old(p))
      ensures p == if ok then old(p) + rules else old(p)
    {
      ok := rules !! p;
      if ok { p := p + rules; }
    }

    /** `delete_roles_for_user`: every role grouping of the subject is removed. */
    method DeleteRolesForUser(subject: string) returns (ok: bool)
      modifies this`g
      ensures ok == (RulesOf(old(g), subject) != {})
      ensures g == old(g) - RulesOf(old(g), subject)
    {
      ok := RulesOf(g, subject) != {};
      g := g - RulesOf(g, subject);
    }

    /** `add_grouping_policies`: all-or-nothing, like `add_policies`. */
    method AddGroupingPolicies(rules: set<Rule>) returns (ok: bool)
      modifies this`g
      ensures ok == (rules !! old(g))
      ensures g == if ok then old(g) + rules else old(g)
    {
      ok := rules !! g;
      if ok { g := g + rules; }
    }

    /** `remove_named_grouping_policies("g2", rules)`: all-or-nothing. */
    method RemoveResourceGroupings(rules: set<Rule>) returns (ok: bool)
      modifies this`g2
      ensures ok == (rules <= old(g2))
      ensures g2 == if ok then old(g2) - rules else old(g2)
    {
      ok := rules <= g2;
      if ok { g2 := g2 - rules; }
    }

    /** `add_named_grouping_policies("g2", rules)`: all-or-nothing. */
    method AddResourceGroupings(rules: set<Rule>) returns (ok: bool)
      modifies this`g2
      ensures ok == (rules !! old(g2))
      ensures g2 == if ok then old(g2) + rules else old(g2)
    {
      ok := rules !! g2;
      if ok { g2 := g2 + rules; }
    }
  }

  /**
   * `casbin_get_subject_permissions`. With `implicit`, the engine resolves inherited
   * permissions itself; its answer is the parameter `implicitRules`.
   */
  method GetSubjectPermissions(e: Enforcer, subject: string, implicit: bool, implicitRules: set<Rule>)
    returns (permissions: set<string>)
    ensures permissions == SubjectPermissions(if implicit then implicitRules else RulesOf(e.p, subject))
    ensures !implicit ==> forall q :: q in permissions <==>
      exists x :: x in e.p && Owns(x, subject) && q == Encode(x[1..])
  {
    var rules := if implicit then implicitRules else e.PermissionsForUser(subject);
    permissions := set x | x in rules :: Encode(Tail(x));
  }

  // ---------------------------------------------------------------- permissions

  /** The rules that `permissions` stand for once decoded and prefixed with the subject. */
  function NewRules(subject: string, permissions: seq<string>): (r: set<Rule>)
    ensures forall x :: x in r ==> Owns(x, subject)
  {
    set q | q in permissions :: [subject] + Decode(q)
  }

  /** The permission relation after the subject's permissions were replaced. */
  function PermissionsAfter(p: set<Rule>, subject: string, permissions: seq<string>): set<Rule>
  {
    (p - RulesOf(p, subject)) + NewRules(subject, permissions)
  }

  /**
   * `casbin_update_subject_permissions`: the subject's rules become exactly the decoded
   * `permissions`, by removing old-minus-new and adding new-minus-old; the input list
   * is returned as it is.
   */
  method UpdateSubjectPermissions(e: Enforcer, subject: string, permissions: seq<string>)
    returns (r: seq<string>)
    modifies e
    ensures r == permissions
    ensures e.p == PermissionsAfter(old(e.p), subject, permissions)
    ensures e.g == old(e.g) && e.g2 == old(e.g2)
  {
    var oldRules := e.PermissionsForUser(subject);
    var newRules: set<Rule> := {};
    var i := 0;
    while i < |permissions|
      invariant 0 <= i <= |permissions|
      invariant newRules == NewRules(subject, permissions[..i])
    {
      assert permissions[..i + 1] == permissions[..i] + [permissions[i]];
      newRules := newRules + {[subject] + Decode(permissions[i])};
      i := i + 1;
    }
    assert permissions[..i] == permissions;
    var removeRules := oldRules - newRules;
    var addRules := newRules - oldRules;
    ghost var p0 := e.p;
    if removeRules != {} {
      var ok := e.RemovePolicies(removeRules);
      assert ok;
    }
    assert e.p == p0 - removeRules;
    assert addRules !! e.p by {
      forall x | x in addRules
        ensures x !in e.p
      {
        assert Owns(x, subject) && x !in oldRules;
      }
    }
    if addRules != {} {
      var ok := e.AddPolicies(addRules);
      assert ok;
    }
    assert e.p == (p0 - removeRules) + addRules;
    DiffUpdate(p0, oldRules, newRules);
    r := permissions;
  }

  /** Removing before-minus-after and adding after-minus-before replaces `before` by `after`. */
  lemma DiffUpdate<T>(s: set<T>, before: set<T>, after: set<T>)
    requires before <= s
    requires forall x :: x in after && x in s ==> x in before
    ensures (s - (before - after)) + (after - before) == (s - before) + after
  {
  }

  /** After the replacement the subject holds exactly the decoded permissions. */
  lemma PermissionsAfterSubject(p: set<Rule>, subject: string, permissions: seq<string>)
    ensures RulesOf(PermissionsAfter(p, subject, permissions), subject) == NewRules(subject, permissions)
  {
  }

  /** The replacement leaves every other subject's rules as they were. */
  lemma PermissionsAfterOthers(p: set<Rule>, subject: string, permissions: seq<string>, other: string)
    requires other != subject
    ensures RulesOf(PermissionsAfter(p, subject, permissions), other) == RulesOf(p, other)
  {
  }

  /**
   * Reading the subject's permissions back after the replacement yields the
   * re-encoded forms of `permissions`, and exactly `permissions` when each of them
   * already has the five fields.
   */
  lemma {:induction false} PermissionsReadBack(p: set<Rule>, subject: string, permissions: seq<string>)
    ensures SubjectPermissions(RulesOf(PermissionsAfter(p, subject, permissions), subject))
         == set q | q in permissions :: Encode(Decode(q))
    ensures (forall q :: q in permissions ==> Count(q, Sep) >= FieldCount - 1) ==>
      SubjectPermissions(RulesOf(PermissionsAfter(p, subject, permissions), subject)) == set q | q in permissions
  {
    var after := RulesOf(PermissionsAfter(p, subject, permissions), subject);
    PermissionsAfterSubject(p, subject, permissions);
    var lhs := SubjectPermissions(after);
    var rhs := set q | q in permissions :: Encode(Decode(q));
    forall s | s in lhs ensures s in rhs {
      var x :| x in after && s == Encode(Tail(x));
      var q :| q in permissions && x == [subject] + Decode(q);
      assert Tail(x) == Decode(q);
    }
    forall s | s in rhs ensures s in lhs {
      var q :| q in permissions && s == Encode(Decode(q));
      var x := [subject] + Decode(q);
      assert x in after;
      assert Tail(x) == Decode(q);
    }
    if forall q :: q in permissions ==> Count(q, Sep) >= FieldCount - 1 {
      forall q | q in permissions ensures Encode(Decode(q)) == q {
        EncodeDecodeWellFormed(q);
      }
    }
  }

  // ---------------------------------------------------------------- roles

  /** The role groupings a comma-separated role list stands for; empty pieces are skipped. */
  function NewRoles(subject: string, roleKeys: string): (r: set<Rule>)
    ensures forall x :: x in r ==> Owns(x, subject)
  {
    set role | role in Split(roleKeys, ',') && role != "" :: [subject, RolePrefix + role]
  }

  /** The role relation after the subject's roles were replaced. */
  function RolesAfter(g: set<Rule>, subject: string, roleKeys: string): set<Rule>
  {
    (g - RulesOf(g, subject)) + NewRoles(subject, roleKeys)
  }

  /**
   * `casbin_update_subject_roles`: delete all the subject's roles, then add the new
   * ones if there are any. `role_keys` defaults to `None`, and splitting `None`
   * raises before the store is touched: `raised` reports that path.
   */
  method UpdateSubjectRoles(e: Enforcer, subject: string, roleKeys: Option<string>)
    returns (raised: bool)
    modifies e
    ensures raised <==> roleKeys.None?
    ensures raised ==> e.g == old(e.g)
    ensures !raised ==> e.g == RolesAfter(old(e.g), subject, roleKeys.value)
    ensures e.p == old(e.p) && e.g2 == old(e.g2)
  {
    if roleKeys.None? {
      return true;
    }
    var newRoles := NewRoles(subject, roleKeys.value);
    var _ := e.DeleteRolesForUser(subject);
    if newRoles != {} {
      var _ := e.AddGroupingPolicies(newRoles);
    }
    raised := false;
  }

  /**
   * Afterwards the subject's groupings are exactly `(subject, "r:" + role)` for the
   * non-empty pieces of the list, and no other subject's groupings changed.
   */
  lemma RolesAfterExact(g: set<Rule>, subject: string, roleKeys: string, x: Rule, other: string)
    requires other != subject
    ensures x in RulesOf(RolesAfter(g, subject, roleKeys), subject) <==>
      exists role :: role in Split(roleKeys, ',') && role != "" && x == [subject, RolePrefix + role]
    ensures RulesOf(RolesAfter(g, subject, roleKeys), other) == RulesOf(g, other)
  {
  }

  /** Replacing the roles twice with the same list gives the same state as once. */
  lemma RolesAfterIdempotent(g: set<Rule>, subject: string, roleKeys: string)
    ensures RolesAfter(RolesAfter(g, subject, roleKeys), subject, roleKeys) == RolesAfter(g, subject, roleKeys)
  {
    var once := RolesAfter(g, subject, roleKeys);
    assert RulesOf(once, subject) == NewRoles(subject, roleKeys);
  }

  /** An empty list leaves the subject without roles. */
  lemma RolesAfterEmpty(g: set<Rule>, subject: string)
    ensures RulesOf(RolesAfter(g, subject, ""), subject) == {}
  {
    assert Split("", ',') == [""];
  }

  /** The list "a,b" leaves the subject with exactly the roles `r:a` and `r:b`. */
  lemma RolesAfterTwo(g: set<Rule>, subject: string)
    ensures RulesOf(RolesAfter(g, subject, "a,b"), subject) == {[subject, "r:a"], [subject, "r:b"]}
  {
    SplitPlain("b", ',');
    SplitCons("a", "b", ',');
    assert "a" + [','] + "b" == "a,b";
    assert Split("a,b", ',') == ["a", "b"];
    var want: set<Rule> := {[subject, "r:a"], [subject, "r:b"]};
    assert RolePrefix + "a" == "r:a" && RolePrefix + "b" == "r:b";
    forall x | x in NewRoles(subject, "a,b") ensures x in want {
      var role :| role in ["a", "b"] && role != "" && x == [subject, RolePrefix + role];
    }
    assert [subject, RolePrefix + "a"] in NewRoles(subject, "a,b");
    assert [subject, RolePrefix + "b"] in NewRoles(subject, "a,b");
    assert RulesOf(RolesAfter(g, subject, "a,b"), subject) == NewRoles(subject, "a,b");
  }

  // ---------------------------------------------------------------- resource groupings

  /** The edge list as a set of two-field rules (`set(get_admin_grouping(site))`). */
  function EdgeRules(edges: seq<(string, string)>): set<Rule>
  {
    set edge | edge in edges :: [edge.0, edge.1]
  }

  /**
   * `casbin_update_site_grouping`: `g2` becomes exactly the site's edge set, by
   * removing old-minus-new and adding new-minus-old.
   */
  method UpdateSiteGrouping(e: Enforcer, site: Admin)
    requires site.AdminGroup?
    modifies e
    ensures e.g2 == EdgeRules(AdminGrouping(site))
    ensures e.p == old(e.p) && e.g == old(e.g)
  {
    var oldRoles := e.g2;
    var newRoles := EdgeRules(AdminGrouping(site));
    var removeRoles := oldRoles - newRoles;
    var addRoles := newRoles - oldRoles;
    assert oldRoles - removeRoles == oldRoles * newRoles;
    if removeRoles != {} {
      var ok := e.RemoveResourceGroupings(removeRoles);
      assert ok;
      assert e.g2 == oldRoles - removeRoles;
    } else {
      assert oldRoles == oldRoles - removeRoles;
    }
    assert e.g2 == oldRoles * newRoles;
    assert (oldRoles * newRoles) + addRoles == newRoles;
    if addRoles != {} {
      var ok := e.AddResourceGroupings(addRoles);
      assert ok;
    } else {
      assert oldRoles * newRoles == newRoles;
    }
  }

  /** The resulting `g2` holds `[parent, child]` exactly for the admins the walk reaches. */
  lemma SiteGroupingExact(site: Admin, parent: string, child: string)
    requires site.AdminGroup?
    ensures [parent, child] in EdgeRules(AdminGrouping(site)) <==>
      exists a :: Visited(site.admins, a) && a.app.App? && (parent, child) == (a.app.id, a.uniqueId)
  {
    EdgesExact(site.admins, (parent, child));
    if [parent, child] in EdgeRules(AdminGrouping(site)) {
      var edge :| edge in AdminGrouping(site) && [parent, child] == [edge.0, edge.1];
      assert edge == (parent, child);
    }
  }
}
