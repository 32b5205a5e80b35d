/**
 * `get_admin_grouping` (fastapi_user_auth/utils.py): the parent/child edges of the
 * admin tree, which the policy engine keeps as its resource grouping `g2`.
 */
module Grouping {
  import opened AdminTree

  /**
   * `get_admin_grouping(group)`: the edges below `group`, which are exactly the
   * `(app id, own id)` pairs of the admins the walk reaches.
   */
  function AdminGrouping(group: Admin): (edges: seq<(string, string)>)
    requires group.AdminGroup?
    ensures forall edge :: edge in edges <==>
      exists a :: Visited(group.admins, a) && a.app.App? && edge == (a.app.id, a.uniqueId)
  {
    EdgesExactAll(group.admins);
    Edges(group.admins)
  }

  /**
   * The edges contributed by `admins`, in iteration order: an admin that is its own
   * app is skipped; any other contributes `(app id, own id)`, followed, for a group,
   * by the edges below it.
   */
  function Edges(admins: seq<Admin>): seq<(string, string)>
    decreases admins
  {
    if |admins| == 0 then []
    else
      var a := admins[|admins| - 1];
      var before := Edges(admins[..|admins| - 1]);
      if a.app.OwnApp? then before
      else before + [(a.app.id, a.uniqueId)] + (if a.AdminGroup? then Edges(a.admins) else [])
  }

  /**
   * `a` is reached by the walk: it is one of `admins`, or lies below one of them that
   * is a group, and every admin on the way (itself included) is registered in an app.
   */
  ghost predicate Visited(admins: seq<Admin>, a: Admin)
    decreases admins
  {
    exists i :: 0 <= i < |admins| && admins[i].app.App? &&
      (admins[i] == a || (admins[i].AdminGroup? && Visited(admins[i].admins, a)))
  }

  lemma VisitedPrefix(admins: seq<Admin>, n: nat, a: Admin)
    requires n <= |admins| && Visited(admins[..n], a)
    ensures Visited(admins, a)
  {
    var i :| 0 <= i < n && admins[..n][i].app.App? &&
      (admins[..n][i] == a || (admins[..n][i].AdminGroup? && Visited(admins[..n][i].admins, a)));
    assert admins[..n][i] == admins[i];
  }

  /**
   * The edge list holds exactly one kind of pair: `(app id, own id)` of an admin the
   * walk reaches, and it holds that pair for every admin the walk reaches.
   */
  lemma {:induction false} EdgesExact(admins: seq<Admin>, edge: (string, string))
    ensures edge in Edges(admins) <==>
      exists a :: Visited(admins, a) && a.app.App? && edge == (a.app.id, a.uniqueId)
    decreases admins
  {
    if |admins| > 0 {
      var n := |admins| - 1;
      var last := admins[n];
      var init := admins[..n];
      EdgesExact(init, edge);
      if last.AdminGroup? {
        EdgesExact(last.admins, edge);
      }
      if edge in Edges(admins) {
        if edge in Edges(init) {
          var a :| Visited(init, a) && a.app.App? && edge == (a.app.id, a.uniqueId);
          VisitedPrefix(admins, n, a);
        } else if edge == (last.app.id, last.uniqueId) && last.app.App? {
          assert Visited(admins, last);
        } else {
          assert last.app.App? && last.AdminGroup? && edge in Edges(last.admins);
          var a :| Visited(last.admins, a) && a.app.App? && edge == (a.app.id, a.uniqueId);
          assert Visited(admins, a);
        }
      }
      if exists a :: Visited(admins, a) && a.app.App? && edge == (a.app.id, a.uniqueId) {
        var a :| Visited(admins, a) && a.app.App? && edge == (a.app.id, a.uniqueId);
        var i :| 0 <= i < |admins| && admins[i].app.App? &&
          (admins[i] == a || (admins[i].AdminGroup? && Visited(admins[i].admins, a)));
        if i < n {
          assert init[i] == admins[i];
          assert Visited(init, a);
        }
      }
    }
  }

  /** `EdgesExact` for every edge at once. */
  lemma EdgesExactAll(admins: seq<Admin>)
    ensures forall edge :: edge in Edges(admins) <==>
      exists a :: Visited(admins, a) && a.app.App? && edge == (a.app.id, a.uniqueId)
  {
    forall edge {
      EdgesExact(admins, edge);
    }
  }
}
