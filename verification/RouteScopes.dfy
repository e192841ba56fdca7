/** The route checks of any graph of the current schema, accepted or not: for which scopes they can be derived. */
module RouteScopes {
  import opened Common
  import opened GoalManager
  import opened RegressionSuites

  predicate Owned(g: GoalGraph, ids: seq<string>, i: int) {
    0 <= i < |g.routes| && g.routes[i].owner in ids
  }

  ghost predicate SharePath(g: GoalGraph, ids: seq<string>, i: int, j: int) {
    i < j && Owned(g, ids, i) && Owned(g, ids, j) && g.routes[i].path == g.routes[j].path
  }

  lemma {:induction false} OwnedCount(routes: seq<Route>, ids: seq<string>)
    ensures |RoutesOwnedBy(routes, ids)| <= |routes|
    ensures |RoutesOwnedBy(routes, ids)| == |routes| <==> forall i :: 0 <= i < |routes| ==> routes[i].owner in ids
  {
    if routes != [] {
      OwnedCount(routes[..|routes| - 1], ids);
    }
  }

  /** No two routes that these goals own share a path. */
  ghost predicate OwnedDiffer(routes: seq<Route>, ids: seq<string>) {
    forall i, j :: 0 <= i < j < |routes| && routes[i].owner in ids && routes[j].owner in ids ==>
      routes[i].path != routes[j].path
  }

  ghost predicate Avoids(routes: seq<Route>, path: string) {
    forall r :: r in routes ==> r.path != path
  }

  ghost predicate OwnedAvoid(routes: seq<Route>, ids: seq<string>, path: string) {
    forall r :: r in routes && r.owner in ids ==> r.path != path
  }

  lemma OneMoreOwned(routes: seq<Route>, last: Route, ids: seq<string>)
    ensures RoutesOwnedBy(routes + [last], ids) ==
            if last.owner in ids then RoutesOwnedBy(routes, ids) + [last] else RoutesOwnedBy(routes, ids)
  {
    assert (routes + [last])[..|routes|] == routes;
  }

  lemma OwnedAreAvoided(routes: seq<Route>, ids: seq<string>, path: string)
    ensures Avoids(RoutesOwnedBy(routes, ids), path) <==> OwnedAvoid(routes, ids, path)
  {
    OwnedMembers(routes, ids);
  }

  lemma {:induction false} OwnedPathsDiffer(routes: seq<Route>, ids: seq<string>)
    ensures DistinctPaths(RoutesOwnedBy(routes, ids)) <==> OwnedDiffer(routes, ids)
  {
    if routes != [] {
      var earlier, last := routes[..|routes| - 1], routes[|routes| - 1];
      assert routes == earlier + [last];
      OwnedPathsDiffer(earlier, ids);
      OneMoreOwned(earlier, last, ids);
      OwnedDifferNext(earlier, last, ids);
      OwnedAreAvoided(earlier, ids, last.path);
      DistinctPathsNext(RoutesOwnedBy(earlier, ids), last);
    }
  }

  lemma DistinctPathsNext(routes: seq<Route>, last: Route)
    ensures DistinctPaths(routes + [last]) <==> DistinctPaths(routes) && Avoids(routes, last.path)
  {
    var all := routes + [last];
    if DistinctPaths(all) {
      assert all[|routes|] == last && forall k :: 0 <= k < |routes| ==> all[k] == routes[k];
    }
  }

  lemma OwnedDifferNext(routes: seq<Route>, last: Route, ids: seq<string>)
    ensures OwnedDiffer(routes + [last], ids) <==>
            OwnedDiffer(routes, ids) && (last.owner in ids ==> OwnedAvoid(routes, ids, last.path))
  {
    var all := routes + [last];
    if OwnedDiffer(all, ids) {
      assert all[|routes|] == last && forall k :: 0 <= k < |routes| ==> all[k] == routes[k];
    }
  }

  /** All goals are in the scope, and they own all routes. */
  ghost predicate CoversAll(g: GoalGraph, ids: seq<string>) {
    && (forall k :: 0 <= k < |g.goals| ==> g.goals[k].id in ids)
    && (forall i :: 0 <= i < |g.routes| ==> Owned(g, ids, i))
  }

  ghost predicate OwnsRoot(g: GoalGraph, ids: seq<string>) {
    exists i :: Owned(g, ids, i) && g.routes[i].path == "/"
  }

  ghost predicate SharesPath(g: GoalGraph, ids: seq<string>) {
    exists i, j :: SharePath(g, ids, i, j)
  }

  /** What is wrong with the scope of a suite that owns a route. */
  ghost predicate ScopeMisfit(g: GoalGraph, ids: seq<string>, mode: NavigationMode) {
    (mode == FinalFull && !CoversAll(g, ids)) || (mode == ReadyFull && !OwnsRoot(g, ids)) || SharesPath(g, ids)
  }

  lemma GoalIdsHave(goals: seq<Goal>, id: string)
    ensures id in GoalIds(goals) <==> exists k :: 0 <= k < |goals| && goals[k].id == id
  {
    if k :| 0 <= k < |goals| && goals[k].id == id {
      assert GoalIds(goals)[k] == id;
    }
  }

  lemma RootIsOwned(g: GoalGraph, ids: seq<string>)
    ensures HasRoot(RoutesOwnedBy(g.routes, ids)) <==> OwnsRoot(g, ids)
    ensures RoutesOwnedBy(g.routes, ids) != [] <==> exists i :: Owned(g, ids, i)
  {
    var routes := RoutesOwnedBy(g.routes, ids);
    OwnedMembers(g.routes, ids);
    if HasRoot(routes) {
      var k :| 0 <= k < |routes| && routes[k].path == "/";
      RouteIsOwned(g, ids, routes[k]);
    }
    if i :| Owned(g, ids, i) && g.routes[i].path == "/" {
      assert g.routes[i] in routes;
    }
    if routes != [] {
      RouteIsOwned(g, ids, routes[0]);
    }
    if i :| Owned(g, ids, i) {
      assert g.routes[i] in routes;
    }
  }

  lemma RouteIsOwned(g: GoalGraph, ids: seq<string>, route: Route)
    requires route in RoutesOwnedBy(g.routes, ids)
    ensures exists i :: Owned(g, ids, i) && g.routes[i] == route
  {
    OwnedMembers(g.routes, ids);
    var i :| 0 <= i < |g.routes| && g.routes[i] == route;
    assert Owned(g, ids, i);
  }

  lemma AllIsCovered(g: GoalGraph, ids: seq<string>)
    ensures CoversAll(g, ids) <==>
            (forall id :: id in GoalIds(g.goals) ==> id in ids) && |RoutesOwnedBy(g.routes, ids)| == |g.routes|
  {
    OwnedCount(g.routes, ids);
    forall id ensures id in GoalIds(g.goals) <==> exists k :: 0 <= k < |g.goals| && g.goals[k].id == id {
      GoalIdsHave(g.goals, id);
    }
    if CoversAll(g, ids) {
      forall i | 0 <= i < |g.routes| ensures g.routes[i].owner in ids {
        assert Owned(g, ids, i);
      }
    }
  }

  lemma PathsAreShared(g: GoalGraph, ids: seq<string>)
    ensures SharesPath(g, ids) <==> !DistinctPaths(RoutesOwnedBy(g.routes, ids))
  {
    OwnedPathsDiffer(g.routes, ids);
    if !OwnedDiffer(g.routes, ids) {
      var i, j :| 0 <= i < j < |g.routes| && g.routes[i].owner in ids && g.routes[j].owner in ids
                  && g.routes[i].path == g.routes[j].path;
      assert SharePath(g, ids, i, j);
    }
  }

  /** For any graph of the current schema and any scope: when the derivation raises, and when nothing is checked. */
  lemma NavigationOfAnyGraph(g: GoalGraph, ids: seq<string>, mode: NavigationMode)
    requires g.schemaVersion == 3
    ensures var r, known := DeriveNavigationSuite(g, ids, mode), GoalIds(g.goals);
            && (r == Err(InvalidSuite) <==> r.Err?)
            && (r.Err? <==>
                  || ids == [] || (exists id :: id in ids && id !in known)
                  || ((exists i :: Owned(g, ids, i)) && ScopeMisfit(g, ids, mode)))
            && (r == Ok(None) ==> forall i :: !Owned(g, ids, i))
            && (r.Ok? && r.value.Some? ==> r.value == Some(NavigationSuite(RoutesOwnedBy(g.routes, ids), mode)))
  {
    RootIsOwned(g, ids);
    AllIsCovered(g, ids);
    PathsAreShared(g, ids);
  }
}
