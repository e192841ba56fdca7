/** What each verification runs, over whole runs: well-formed suites and regression soundness. */
module RegressionSuites {
  import opened Common
  import opened GoalManager
  import opened GoalRuns

  // ------------------------------------------------------------ route manifest

  /** `b` is `a` or is reached from it by following at most `depth` dependencies. */
  ghost predicate Reaches(goals: seq<Goal>, a: string, b: string, depth: nat)
    decreases depth
  {
    || a == b
    || (depth > 0 && exists i, d ::
        0 <= i < |goals| && goals[i].id == a && d in goals[i].dependsOn && Reaches(goals, d, b, depth - 1))
  }

  /** The route contract a current-schema graph was accepted under. */
  ghost predicate ManifestOk(g: GoalGraph) {
    g.schemaVersion == SCHEMA_VERSION ==>
      && DistinctPaths(g.routes)
      && (forall i :: 0 <= i < |g.routes| ==> g.routes[i].owner in GoalIds(g.goals))
      && exists root :: root in g.routes && root.path == "/" && ReachedByAll(g, root)
  }

  /** Every route's owner depends, directly or not, on the owner of the root route. */
  ghost predicate ReachedByAll(g: GoalGraph, root: Route) {
    forall i :: 0 <= i < |g.routes| ==> exists depth: nat :: Reaches(g.goals, g.routes[i].owner, root.owner, depth)
  }

  /** A set of goals that contains the dependencies of its members contains everything they reach. */
  lemma {:induction false} ClosedContainsReached(goals: seq<Goal>, ids: seq<string>, a: string, b: string, depth: nat)
    requires forall i :: 0 <= i < |goals| && goals[i].id in ids ==> forall d :: d in goals[i].dependsOn ==> d in ids
    requires a in ids && Reaches(goals, a, b, depth)
    ensures b in ids
    decreases depth
  {
    if a != b {
      var i, d :| 0 <= i < |goals| && goals[i].id == a && d in goals[i].dependsOn && Reaches(goals, d, b, depth - 1);
      ClosedContainsReached(goals, ids, d, b, depth - 1);
    }
  }

  lemma {:induction false} OwnedMembers(routes: seq<Route>, ids: seq<string>)
    ensures forall r :: r in RoutesOwnedBy(routes, ids) <==> r in routes && r.owner in ids
  {
    if routes != [] {
      var earlier, last := routes[..|routes| - 1], routes[|routes| - 1];
      OwnedMembers(earlier, ids);
      assert routes == earlier + [last];
    }
  }

  lemma {:induction false} OwnedAll(routes: seq<Route>, ids: seq<string>)
    requires forall i :: 0 <= i < |routes| ==> routes[i].owner in ids
    ensures RoutesOwnedBy(routes, ids) == routes
  {
    if routes != [] {
      OwnedAll(routes[..|routes| - 1], ids);
    }
  }

  predicate DistinctPaths(routes: seq<Route>) {
    forall i, j :: 0 <= i < j < |routes| ==> routes[i].path != routes[j].path
  }

  lemma {:induction false} OwnedDistinct(routes: seq<Route>, ids: seq<string>)
    requires DistinctPaths(routes)
    ensures DistinctPaths(RoutesOwnedBy(routes, ids))
  {
    if routes != [] {
      var earlier := routes[..|routes| - 1];
      OwnedDistinct(earlier, ids);
      OwnedMembers(earlier, ids);
      var kept := RoutesOwnedBy(earlier, ids);
      forall k | 0 <= k < |kept| ensures kept[k] in earlier {
        assert kept[k] in kept;
      }
    }
  }

  // ------------------------------------------------------------- suites at a claim

  lemma {:induction false} SelectedPrefix(goals: seq<Goal>, k: nat)
    requires UniqueIds(goals) && k < |goals|
    requires forall i :: 0 <= i < |goals| ==> (goals[i].status == Verified <==> i < k)
    ensures SelectedIds(goals, goals[k].id) == GoalIds(goals)[..k + 1]
  {
    SelectedUpTo(goals, k, |goals|);
    assert goals[..|goals|] == goals;
  }

  lemma {:induction false} SelectedUpTo(goals: seq<Goal>, k: nat, n: nat)
    requires UniqueIds(goals) && k < |goals| && n <= |goals|
    requires forall i :: 0 <= i < |goals| ==> (goals[i].status == Verified <==> i < k)
    ensures SelectedIds(goals[..n], goals[k].id) == GoalIds(goals)[..Min(n, k + 1)]
  {
    if n > 0 {
      SelectedUpTo(goals, k, n - 1);
      assert goals[..n][..n - 1] == goals[..n - 1];
      assert goals[..n][n - 1] == goals[n - 1];
    }
  }

  /** The ids a suite covers when goal `k` is claimed. */
  function SuiteIds(start: GoalGraph, k: nat, full: bool): seq<string>
    requires k < |start.goals|
  {
    if full then GoalIds(start.goals)[..k + 1] else [start.goals[k].id]
  }

  lemma PrefixIsClosed(start: GoalGraph, k: nat)
    requires Topological(start.goals) && k < |start.goals|
    ensures forall i :: 0 <= i < |start.goals| && start.goals[i].id in GoalIds(start.goals)[..k + 1] ==>
                          forall d :: d in start.goals[i].dependsOn ==> d in GoalIds(start.goals)[..k + 1]
  {
    var ids := GoalIds(start.goals)[..k + 1];
    forall i, d | 0 <= i < |start.goals| && start.goals[i].id in ids && d in start.goals[i].dependsOn ensures d in ids {
      var m :| 0 <= m < |ids| && ids[m] == start.goals[i].id;
      assert start.goals[m].id == start.goals[i].id;
      assert m == i;
      assert DependsEarlier(start.goals, i);
      var j :| 0 <= j < i && start.goals[j].id == d;
      assert ids[j] == d;
    }
  }

  lemma RootOwnerIsSelected(start: GoalGraph, k: nat, root: Route, route: Route)
    requires Initial(start) && ManifestOk(start) && k < |start.goals| && start.schemaVersion == SCHEMA_VERSION
    requires ReachedByAll(start, root) && route in start.routes && route.owner in SuiteIds(start, k, true)
    ensures root.owner in SuiteIds(start, k, true)
  {
    var i :| 0 <= i < |start.routes| && start.routes[i] == route;
    var depth: nat :| Reaches(start.goals, start.routes[i].owner, root.owner, depth);
    PrefixIsClosed(start, k);
    ClosedContainsReached(start.goals, SuiteIds(start, k, true), start.routes[i].owner, root.owner, depth);
  }

  /** A full suite that owns any route owns the root route. */
  lemma RootIsSelected(start: GoalGraph, k: nat)
    requires Initial(start) && ManifestOk(start) && k < |start.goals| && start.schemaVersion == SCHEMA_VERSION
    requires RoutesOwnedBy(start.routes, SuiteIds(start, k, true)) != []
    ensures HasRoot(RoutesOwnedBy(start.routes, SuiteIds(start, k, true)))
  {
    var ids := SuiteIds(start, k, true);
    var routes := RoutesOwnedBy(start.routes, ids);
    var root :| root in start.routes && root.path == "/" && ReachedByAll(start, root);
    OwnedMembers(start.routes, ids);
    assert routes[0] in routes;
    RootOwnerIsSelected(start, k, root, routes[0]);
    assert root in routes;
  }

  lemma SuiteIdsAreKnown(start: GoalGraph, k: nat, full: bool)
    requires k < |start.goals|
    ensures SuiteIds(start, k, full) != []
    ensures forall id :: id in SuiteIds(start, k, full) ==> id in GoalIds(start.goals)
    ensures full && k + 1 == |start.goals| ==> SuiteIds(start, k, full) == GoalIds(start.goals)
  {
    assert GoalIds(start.goals)[k] == start.goals[k].id;
  }

  /** The graph is of the current schema, and a goal of the suite owns a route. */
  predicate HasRoutes(start: GoalGraph, goalIds: seq<string>) {
    start.schemaVersion == 3 && exists i :: 0 <= i < |start.routes| && start.routes[i].owner in goalIds
  }

  /** These are the routes that goals of the suite own, each once and in frozen order. */
  ghost predicate RoutesOf(start: GoalGraph, goalIds: seq<string>, routes: seq<Route>) {
    && DistinctPaths(routes)
    && (forall r :: r in routes <==> r in start.routes && r.owner in goalIds)
    && (forall a, b, i, j | 0 <= a < |routes| && 0 <= b < |routes| && 0 <= i < |start.routes| && 0 <= j < |start.routes|
          :: routes[a] == start.routes[i] && routes[b] == start.routes[j] ==> (a < b <==> i < j))
  }

  /** What a suite runs beside the acceptance of its goals: the checks of their routes, in the mode of the suite. */
  ghost predicate NavigationFits(start: GoalGraph, k: nat, suite: RegressionSuite) {
    && (suite.navigation.Some? <==> HasRoutes(start, suite.goalIds))
    && (suite.navigation.Some? ==>
          && RoutesOf(start, suite.goalIds, suite.navigation.value.routes)
          && (suite.navigation.value.mode == FinalFull <==> k + 1 == |start.goals|)
          && (suite.navigation.value.mode == ReadyFull <==> suite.mode == Full && k + 1 < |start.goals|)
          && (suite.navigation.value.mode == FocusedNavigation <==> suite.mode == Focused))
  }

  lemma {:induction false} OwnedInOrder(routes: seq<Route>, ids: seq<string>, a: nat, i: nat)
    requires DistinctPaths(routes) && i < |routes| && routes[i].owner in ids
    requires a < |RoutesOwnedBy(routes, ids)| && RoutesOwnedBy(routes, ids)[a] == routes[i]
    ensures a == |RoutesOwnedBy(routes[..i], ids)|
  {
    var earlier := routes[..|routes| - 1];
    var kept := RoutesOwnedBy(earlier, ids);
    if i == |earlier| {
      OwnedMembers(earlier, ids);
      forall x | 0 <= x < |kept| ensures kept[x] in earlier {
        assert kept[x] in kept;
      }
    } else {
      assert earlier[..i] == routes[..i];
      OwnedInOrder(earlier, ids, a, i);
    }
  }

  lemma {:induction false} OwnedGrows(routes: seq<Route>, ids: seq<string>, i: nat, j: nat)
    requires i < j <= |routes| && routes[i].owner in ids
    ensures |RoutesOwnedBy(routes[..i], ids)| < |RoutesOwnedBy(routes[..j], ids)|
    decreases j
  {
    assert routes[..j][..j - 1] == routes[..j - 1];
    if i < j - 1 {
      OwnedGrows(routes, ids, i, j - 1);
    }
  }

  lemma OwnedAre(start: GoalGraph, ids: seq<string>)
    requires DistinctPaths(start.routes)
    ensures RoutesOf(start, ids, RoutesOwnedBy(start.routes, ids))
  {
    var all, routes := start.routes, RoutesOwnedBy(start.routes, ids);
    OwnedDistinct(all, ids);
    OwnedMembers(all, ids);
    forall a, b, i, j | 0 <= a < |routes| && 0 <= b < |routes| && 0 <= i < |all| && 0 <= j < |all|
                        && routes[a] == all[i] && routes[b] == all[j] ensures a < b <==> i < j {
      assert routes[a] in routes && routes[b] in routes;
      OwnedInOrder(all, ids, a, i);
      OwnedInOrder(all, ids, b, j);
      if i < j {
        OwnedGrows(all, ids, i, j);
      } else if j < i {
        OwnedGrows(all, ids, j, i);
      }
    }
  }

  function ModeAt(start: GoalGraph, k: nat, full: bool): NavigationMode {
    if full && k + 1 == |start.goals| then FinalFull else if full then ReadyFull else FocusedNavigation
  }

  /** The route checks of every suite of an accepted graph can be derived. */
  lemma NavigationDerives(start: GoalGraph, k: nat, phase: GoalStatus, full: bool)
    requires Initial(start) && ManifestOk(start) && k < |start.goals|
    ensures var ids, mode := SuiteIds(start, k, full), ModeAt(start, k, full);
            DeriveNavigationSuite(StateAt(start, k, phase), ids, mode) ==
            Ok(if start.schemaVersion == SCHEMA_VERSION && RoutesOwnedBy(start.routes, ids) != []
                then Some(NavigationSuite(RoutesOwnedBy(start.routes, ids), mode)) else None)
  {
    var g := StateAt(start, k, phase);
    var ids := SuiteIds(start, k, full);
    assert GoalIds(g.goals) == GoalIds(start.goals);
    SuiteIdsAreKnown(start, k, full);
    if g.schemaVersion == SCHEMA_VERSION {
      OwnedDistinct(g.routes, ids);
      if full && RoutesOwnedBy(g.routes, ids) != [] {
        RootIsSelected(start, k);
      }
      if full && k + 1 == |start.goals| {
        OwnedAll(g.routes, ids);
      }
    }
  }

  lemma SomeRouteIsOwned(start: GoalGraph, ids: seq<string>)
    ensures RoutesOwnedBy(start.routes, ids) != [] <==>
            exists i :: 0 <= i < |start.routes| && start.routes[i].owner in ids
  {
    var routes := RoutesOwnedBy(start.routes, ids);
    OwnedMembers(start.routes, ids);
    if routes != [] {
      assert routes[0] in routes;
    }
    if i :| 0 <= i < |start.routes| && start.routes[i].owner in ids {
      assert start.routes[i] in routes;
    }
  }

  lemma DerivedFits(start: GoalGraph, k: nat, suite: RegressionSuite)
    requires ManifestOk(start) && k < |start.goals| && (k + 1 == |start.goals| ==> suite.mode == Full)
    requires var routes, mode := RoutesOwnedBy(start.routes, suite.goalIds), ModeAt(start, k, suite.mode == Full);
             suite.navigation == if start.schemaVersion == SCHEMA_VERSION && routes != []
                                 then Some(NavigationSuite(routes, mode)) else None
    ensures NavigationFits(start, k, suite)
  {
    SomeRouteIsOwned(start, suite.goalIds);
    if start.schemaVersion == SCHEMA_VERSION {
      OwnedAre(start, suite.goalIds);
    }
  }

  predicate EarlyReason(reason: Option<ValidationReason>) {
    reason.Some? ==> reason.value in {ProjectConfigChanged, PriorGoalFileChanged, LegacyCheckpointUnknownPaths}
  }

  /** Whether the suite for goal `k` is a full one. */
  predicate RunsFull(start: GoalGraph, k: nat, fullReason: Option<ValidationReason>) {
    k + 1 == |start.goals| || fullReason.Some?
  }

  lemma ClaimedGoal(start: GoalGraph, k: nat)
    requires Initial(start) && k < |start.goals|
    ensures var g := StateAt(start, k, Claimed);
            && k < |g.goals| && CurrentWith(g, Claimed) == Ok(g.goals[k]) && g.goals[k].id == start.goals[k].id
            && (IsLast(g, start.goals[k].id) <==> k + 1 == |start.goals|)
  {
    CurrentAt(start, k, Claimed);
    LastAt(start, k);
  }

  lemma IdsAtClaim(start: GoalGraph, k: nat, full: bool)
    requires Initial(start) && k < |start.goals|
    ensures var g, id := StateAt(start, k, Claimed), start.goals[k].id;
            (if full then SelectedIds(g.goals, id) else [id]) == SuiteIds(start, k, full)
  {
    var g := StateAt(start, k, Claimed);
    SelectedPrefix(g.goals, k);
    assert GoalIds(g.goals) == GoalIds(start.goals);
    assert g.goals[k].id == start.goals[k].id;
  }

  /** The one reason a suite is built for, in order of precedence. */
  function ReasonAt(last: bool, fullReason: Option<ValidationReason>): ValidationReason {
    if last then FinalGoal else if fullReason.Some? then fullReason.value else GoalFocused
  }

  /** The suite for goal `k`. */
  function ClaimSuite(start: GoalGraph, k: nat, fullReason: Option<ValidationReason>): RegressionSuite
    requires k < |start.goals|
  {
    var full := RunsFull(start, k, fullReason);
    var ids, derived := SuiteIds(start, k, full), DeriveNavigationSuite(StateAt(start, k, Claimed),
                                                                        SuiteIds(start, k, full),
                                                                        ModeAt(start, k, full));
    RegressionSuite(start.goals[k].id, ids, ids, if full then Full else Focused,
                    ReasonAt(k + 1 == |start.goals|, fullReason), if derived.Ok? then derived.value else None)
  }

  lemma ClaimSuiteIsAccepted(start: GoalGraph, k: nat, fullReason: Option<ValidationReason>)
    requires Initial(start) && k < |start.goals| && (k + 1 == |start.goals| || EarlyReason(fullReason))
    ensures SuiteAccepted(ClaimSuite(start, k, fullReason))
  {
    SuiteIdsFit(start, k, RunsFull(start, k, fullReason));
  }

  lemma SuiteIsBuilt(start: GoalGraph, k: nat, fullReason: Option<ValidationReason>)
    requires Initial(start) && ManifestOk(start) && k < |start.goals|
    ensures BuildRegressionSuite(StateAt(start, k, Claimed), fullReason) ==
            if k + 1 == |start.goals| || EarlyReason(fullReason) then Ok(ClaimSuite(start, k, fullReason))
            else Err(GoalManagerError)
  {
    var full := RunsFull(start, k, fullReason);
    ClaimedGoal(start, k);
    IdsAtClaim(start, k, full);
    NavigationDerives(start, k, Claimed, full);
    if k + 1 == |start.goals| || EarlyReason(fullReason) {
      ClaimSuiteIsAccepted(start, k, fullReason);
    }
  }

  /**
   With goal `k` claimed the suite exists unless a wrong reason for a full one is given before the last goal; it is
   accepted by its constructor, and covers exactly a prefix or the one goal.
   */
  lemma SuiteAtClaim(start: GoalGraph, k: nat, fullReason: Option<ValidationReason>)
    requires Initial(start) && ManifestOk(start) && k < |start.goals|
    ensures var n, built := |start.goals|, BuildRegressionSuite(StateAt(start, k, Claimed), fullReason);
            && (built.Ok? <==> k + 1 == n || EarlyReason(fullReason))
            && (built.Err? ==> built.error == GoalManagerError)
            && (built.Ok? ==>
                  && SuiteAccepted(built.value)
                  && built.value.claimedGoalId == start.goals[k].id
                  && (built.value.mode == Full <==> k + 1 == n || fullReason.Some?)
                  && built.value.goalIds == SuiteIds(start, k, built.value.mode == Full)
                  && built.value.reason == ReasonAt(k + 1 == n, fullReason))
  {
    SuiteIsBuilt(start, k, fullReason);
    if k + 1 == |start.goals| || EarlyReason(fullReason) {
      ClaimSuiteIsAccepted(start, k, fullReason);
    }
  }

  /** Its route checks are those of the routes its goals own. */
  lemma SuiteNavigationAtClaim(start: GoalGraph, k: nat, fullReason: Option<ValidationReason>)
    requires Initial(start) && ManifestOk(start) && k < |start.goals|
    requires BuildRegressionSuite(StateAt(start, k, Claimed), fullReason).Ok?
    ensures NavigationFits(start, k, BuildRegressionSuite(StateAt(start, k, Claimed), fullReason).value)
  {
    SuiteIsBuilt(start, k, fullReason);
    NavigationDerives(start, k, Claimed, RunsFull(start, k, fullReason));
    DerivedFits(start, k, ClaimSuite(start, k, fullReason));
  }

  lemma SuiteIdsFit(start: GoalGraph, k: nat, full: bool)
    requires Topological(start.goals) && k < |start.goals|
    ensures var ids := SuiteIds(start, k, full); ids != [] && ids[|ids| - 1] == start.goals[k].id && Distinct(ids)
  {
    assert forall i, j :: 0 <= i < j <= k ==> GoalIds(start.goals)[i] != GoalIds(start.goals)[j];
  }

  /**
   Over every run: whenever verification is possible the suite can be built, and the graph becomes
   verified on exactly the verification whose suite was the final one, holding every goal once.
   Whatever the suite, its route checks are those of the routes its goals own, in its own mode.
   */
  lemma FinalSuiteVerifiesGraph(start: GoalGraph, ops: seq<Op>, fullReason: Option<ValidationReason>)
    requires Initial(start) && ManifestOk(start)
    ensures var g := Run(start, ops);
            var built := BuildRegressionSuite(g, fullReason);
            var verified := VerifyClaimedGoal(g);
            && (built.Ok? <==>
                  verified.Ok? && (verified.value.status == GraphVerified || EarlyReason(fullReason)))
            && (built.Ok? ==> (verified.value.status == GraphVerified <==> built.value.reason == FinalGoal))
            && (built.Ok? && built.value.reason == FinalGoal ==> built.value.goalIds == GoalIds(start.goals))
            && (built.Ok? ==> NavigationFits(start, PositionAfter(|start.goals|, ops).k, built.value))
  {
    RunRefinesCounter(start, ops);
    var p := PositionAfter(|start.goals|, ops);
    CurrentAt(start, p.k, p.phase);
    OpRefinesMove(start, p, Op.Verify);
    if p.phase == Claimed {
      SuiteAtClaim(start, p.k, fullReason);
      if BuildRegressionSuite(Run(start, ops), fullReason).Ok? {
        SuiteNavigationAtClaim(start, p.k, fullReason);
      }
      assert GoalIds(start.goals)[..|start.goals|] == GoalIds(start.goals);
    }
  }
}
