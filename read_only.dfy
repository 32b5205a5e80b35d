/**
 * The read-only model admin (fastapi_user_auth/mixins/admin.py, `ReadOnlyModelAdmin`):
 * the write actions are unregistered and the write permission checks always refuse.
 */
module ReadOnly {
  import opened AdminTree

  /** The action keys a read-only admin drops from the inherited registration. */
  const WriteActions: set<string> := {"create", "update", "delete", "bulk_delete", "bulk_update", "bulk_create"}

  /**
   * `registered_admin_actions`: the inherited table without the write actions, in
   * the inherited order.
   */
  function RegisteredAdminActions(actions: ActionTable): (r: ActionTable)
    ensures forall e :: e in r <==> e in actions && e.0 !in WriteActions
    ensures forall k :: k in TableKeys(r) <==> k in TableKeys(actions) && k !in WriteActions
    ensures UniqueKeys(actions) ==> UniqueKeys(r)
    ensures |r| <= |actions|
  {
    if |actions| == 0 then []
    else
      var before := RegisteredAdminActions(actions[..|actions| - 1]);
      var last := actions[|actions| - 1];
      assert actions == actions[..|actions| - 1] + [last];
      if last.0 in WriteActions then before else before + [last]
  }

  /** Filtering an already filtered table changes nothing. */
  lemma {:induction false} RegisteredIdempotent(actions: ActionTable)
    ensures RegisteredAdminActions(RegisteredAdminActions(actions)) == RegisteredAdminActions(actions)
  {
    if |actions| > 0 {
      var init := actions[..|actions| - 1];
      var last := actions[|actions| - 1];
      RegisteredIdempotent(init);
      var before := RegisteredAdminActions(init);
      if last.0 !in WriteActions {
        assert (before + [last])[..|before + [last]| - 1] == before;
      }
    }
  }

  /**
   * The filter works entry by entry and keeps order: filtering a concatenation is
   * concatenating the filtered parts.
   */
  lemma {:induction false} RegisteredDistributes(a: ActionTable, b: ActionTable)
    ensures RegisteredAdminActions(a + b) == RegisteredAdminActions(a) + RegisteredAdminActions(b)
    decreases |b|
  {
    if |b| == 0 {
      assert a + b == a;
    } else {
      var init := b[..|b| - 1];
      assert (a + b)[..|a + b| - 1] == a + init;
      assert (a + b)[|a + b| - 1] == b[|b| - 1];
      RegisteredDistributes(a, init);
    }
  }

  /** `has_create_permission`: refused whatever the payload. */
  function HasCreatePermission<D>(data: D): (allowed: bool)
    ensures !allowed
  {
    false
  }

  /** `has_update_permission`: refused whatever the ids and payload. */
  function HasUpdatePermission<D>(itemId: seq<string>, data: D): (allowed: bool)
    ensures !allowed
  {
    false
  }

  /** `has_delete_permission`: refused whatever the ids. */
  function HasDeletePermission(itemId: seq<string>): (allowed: bool)
    ensures !allowed
  {
    false
  }
}
