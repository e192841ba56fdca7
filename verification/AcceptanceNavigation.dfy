/** The route checks of a suite, and when goals compile beside them. */
module AcceptanceNavigation {
  // The checks go into every suite with routes. They lie in a directory of the form that goals have too, so a goal can
  // be named like it.

  import opened Common
  import opened Ordered
  import opened Acceptance
  import opened AcceptanceProofs
  import opened AcceptanceSuites

  // ------------------------------------------------------------- route checks

  datatype SuiteRoute = SuiteRoute(path: string, title: string, deepLinkable: bool)

  /** `shared` is the gate of the two full modes. */
  datatype RouteSuite = RouteSuite(routes: seq<SuiteRoute>, shared: bool)

  /** The first twelve digits of a SHA-256 in hexadecimal. */
  type ShortDigest = s: string | |s| == 12 && forall i :: 0 <= i < 12 ==> '0' <= s[i] <= '9' || 'a' <= s[i] <= 'f'
    witness "000000000000"

  type Shortener = string -> ShortDigest

  /** The text of the check with this title over these routes. */
  type Checker = (string, seq<SuiteRoute>) -> string

  /** The directory of the route checks, `navigation-v` and the suite version 1. */
  const NAVIGATION_DIRECTORY: Identifier := "navigation-v1"

  const SHARED_ID: Identifier := "shared-navigation"
  const MOBILE_ID: Identifier := "mobile-navigation-390"
  const HISTORY_ID: Identifier := "history-roundtrip"

  const SHARED_TITLE := "FOMO navigation: root links reach every route"
  const MOBILE_TITLE := "FOMO navigation: 390px shared navigation reaches every route"
  const HISTORY_TITLE := "FOMO navigation: browser back and forward preserve every route identity"

  const NO_CHECKS := Navigation([], map[], map[])

  function DirectId(path: string, short: Shortener): Identifier {
    "direct-" + short(path)
  }

  /** A dictionary assignment. */
  function Put(files: seq<FileChange>, path: string, content: string): seq<FileChange> {
    if files == [] then [FileChange(path, content)]
    else if files[0].path == path then [FileChange(path, content)] + files[1..]
    else [files[0]] + Put(files[1..], path, content)
  }

  lemma {:induction false} PutHas(files: seq<FileChange>, path: string, content: string, p: string)
    ensures HasPath(Put(files, path, content), p) <==> HasPath(files, p) || p == path
  {
    if files == [] {
      assert Put(files, path, content)[0].path == path;
    } else {
      var head := if files[0].path == path then FileChange(path, content) else files[0];
      var rest := if files[0].path == path then files[1..] else Put(files[1..], path, content);
      assert Put(files, path, content) == [head] + rest;
      PutHas(files[1..], path, content, p);
      HasPathInConcat([head], rest, p);
      HasPathInConcat([files[0]], files[1..], p);
      assert [files[0]] + files[1..] == files;
      assert [head][0] == head && [files[0]][0] == files[0];
    }
  }

  lemma {:induction false} PutIsUnique(files: seq<FileChange>, path: string, content: string)
    requires UniquePaths(files)
    ensures UniquePaths(Put(files, path, content))
  {
    if files != [] && files[0].path != path {
      var rest := Put(files[1..], path, content);
      PutIsUnique(files[1..], path, content);
      PutHas(files[1..], path, content, files[0].path);
      forall j | 0 <= j < |rest| ensures rest[j].path != files[0].path {
        assert HasPath(rest, rest[j].path);
      }
    }
  }

  function Register(n: Navigation, id: Identifier, title: string, text: string): Navigation {
    var path := TestPath(NAVIGATION_DIRECTORY, id);
    PutIsUnique(n.sources, path, text);
    Navigation(Put(n.sources, path, text), n.paths[id := path], n.names[id := title])
  }

  function DirectTitle(route: SuiteRoute): string {
    "FOMO navigation direct load: " + route.title
  }

  /** The direct load of a route goes in. */
  function WithDirect(n: Navigation, route: SuiteRoute, short: Shortener, check: Checker): Navigation {
    Register(n, DirectId(route.path, short), DirectTitle(route), check(DirectTitle(route), [route]))
  }

  /** The direct loads of the first `i` routes. */
  function DirectChecks(suite: RouteSuite, i: nat, short: Shortener, check: Checker): Navigation
    requires i <= |suite.routes|
  {
    if i == 0 then NO_CHECKS
    else WithDirect(DirectChecks(suite, i - 1, short, check), suite.routes[i - 1], short, check)
  }

  predicate HasRoot(routes: seq<SuiteRoute>) {
    exists i :: 0 <= i < |routes| && routes[i].path == "/"
  }

  predicate HasOther(routes: seq<SuiteRoute>) {
    exists i :: 0 <= i < |routes| && routes[i].path != "/"
  }

  predicate ChecksSharing(suite: RouteSuite) {
    suite.shared && HasRoot(suite.routes) && HasOther(suite.routes)
  }

  function WithShared(n: Navigation, routes: seq<SuiteRoute>, check: Checker): Navigation {
    var shared := Register(n, SHARED_ID, SHARED_TITLE, check(SHARED_TITLE, routes));
    var mobile := Register(shared, MOBILE_ID, MOBILE_TITLE, check(MOBILE_TITLE, routes));
    Register(mobile, HISTORY_ID, HISTORY_TITLE, check(HISTORY_TITLE, routes))
  }

  /** What `_navigation_sources` gives. */
  function RouteChecks(suite: Option<RouteSuite>, short: Shortener, check: Checker): Navigation {
    match suite
    case None => NO_CHECKS
    case Some(s) =>
      var direct := DirectChecks(s, |s.routes|, short, check);
      if ChecksSharing(s) then WithShared(direct, s.routes, check) else direct
  }

  method NavigationSources(suite: Option<RouteSuite>, short: Shortener, check: Checker) returns (navigation: Navigation)
    ensures navigation == RouteChecks(suite, short, check)
  {
    navigation := NO_CHECKS;
    if suite == None {
      return;
    }
    var routes := suite.value.routes;
    for i := 0 to |routes|
      invariant navigation == DirectChecks(suite.value, i, short, check)
    {
      var title := DirectTitle(routes[i]);
      navigation := Register(navigation, DirectId(routes[i].path, short), title, check(title, [routes[i]]));
    }
    if !suite.value.shared || !HasRoot(routes) || !HasOther(routes) {
      return;
    }
    navigation := Register(navigation, SHARED_ID, SHARED_TITLE, check(SHARED_TITLE, routes));
    navigation := Register(navigation, MOBILE_ID, MOBILE_TITLE, check(MOBILE_TITLE, routes));
    navigation := Register(navigation, HISTORY_ID, HISTORY_TITLE, check(HISTORY_TITLE, routes));
  }

  // -------------------------------------------------------- where they lie

  function DirectIds(suite: RouteSuite, i: nat, short: Shortener): set<string>
    requires i <= |suite.routes|
  {
    if i == 0 then {} else DirectIds(suite, i - 1, short) + {DirectId(suite.routes[i - 1].path, short)}
  }

  /** The ids of a suite's checks. */
  function CheckIds(suite: Option<RouteSuite>, short: Shortener): set<string> {
    match suite
    case None => {}
    case Some(s) =>
      var ids := DirectIds(s, |s.routes|, short);
      if ChecksSharing(s) then ids + {SHARED_ID} + {MOBILE_ID} + {HISTORY_ID} else ids
  }

  /** The checks are exactly these, each at its own path in the directory of the checks. */
  ghost predicate Placed(n: Navigation, ids: set<string>) {
    && n.paths.Keys == n.names.Keys == ids
    && (forall id :: id in ids ==> IsIdentifier(id) && n.paths[id] == TestPath(NAVIGATION_DIRECTORY, id))
    && (forall path :: HasPath(n.sources, path) <==> path in n.paths.Values)
  }

  lemma RegisterPlaces(n: Navigation, ids: set<string>, id: Identifier, title: string, text: string)
    requires Placed(n, ids)
    ensures Placed(Register(n, id, title, text), ids + {id})
  {
    var m, path := Register(n, id, title, text), TestPath(NAVIGATION_DIRECTORY, id);
    forall p ensures HasPath(m.sources, p) <==> p in m.paths.Values {
      PutHas(n.sources, path, text, p);
      if p in n.paths.Values {
        var k :| k in n.paths && n.paths[k] == p;
        assert m.paths[k] == p;
      }
      if p in m.paths.Values {
        var k :| k in m.paths && m.paths[k] == p;
        assert k != id ==> n.paths[k] == p;
      }
      assert m.paths[id] == path;
    }
  }

  lemma {:induction false} DirectChecksPlaced(suite: RouteSuite, i: nat, short: Shortener, check: Checker)
    requires i <= |suite.routes|
    ensures Placed(DirectChecks(suite, i, short, check), DirectIds(suite, i, short))
  {
    if i > 0 {
      var route := suite.routes[i - 1];
      var title := DirectTitle(route);
      DirectChecksPlaced(suite, i - 1, short, check);
      RegisterPlaces(DirectChecks(suite, i - 1, short, check), DirectIds(suite, i - 1, short),
                     DirectId(route.path, short), title, check(title, [route]));
    }
  }

  lemma SharedPlaced(n: Navigation, ids: set<string>, routes: seq<SuiteRoute>, check: Checker)
    requires Placed(n, ids)
    ensures Placed(WithShared(n, routes, check), ids + {SHARED_ID} + {MOBILE_ID} + {HISTORY_ID})
  {
    var shared := Register(n, SHARED_ID, SHARED_TITLE, check(SHARED_TITLE, routes));
    var mobile := Register(shared, MOBILE_ID, MOBILE_TITLE, check(MOBILE_TITLE, routes));
    RegisterPlaces(n, ids, SHARED_ID, SHARED_TITLE, check(SHARED_TITLE, routes));
    RegisterPlaces(shared, ids + {SHARED_ID}, MOBILE_ID, MOBILE_TITLE, check(MOBILE_TITLE, routes));
    RegisterPlaces(mobile, ids + {SHARED_ID} + {MOBILE_ID}, HISTORY_ID, HISTORY_TITLE, check(HISTORY_TITLE, routes));
  }

  /** The checks that are compiled are those with these ids, each at its own path. */
  lemma RouteChecksPlaced(suite: Option<RouteSuite>, short: Shortener, check: Checker)
    ensures Placed(RouteChecks(suite, short, check), CheckIds(suite, short))
  {
    if suite.Some? {
      var s := suite.value;
      DirectChecksPlaced(s, |s.routes|, short, check);
      SharedPlaced(DirectChecks(s, |s.routes|, short, check), DirectIds(s, |s.routes|, short), s.routes, check);
    }
  }

  // ------------------------------------------------ goals beside the checks

  /** A goal named like the directory of the checks has a test named like one of them. */
  predicate MeetsCheck(s: Scoped, ids: set<string>) {
    s.goalId == NAVIGATION_DIRECTORY && exists j :: 0 <= j < |s.tests| && s.tests[j].id in ids
  }

  ghost predicate Validated(s: Scoped) {
    exists c :: ValidContract(c) && s == Scope(s.goalId, c)
  }

  /** The assets and the route checks do not meet, and hold a test's path exactly when it is that of a check. */
  lemma BaseOf(assets: Sources, n: Navigation, ids: set<string>)
    requires FixedAssets(assets) && Placed(n, ids)
    ensures BaseSources(assets, [], n) == Ok(assets + n.sources)
    ensures forall g: Identifier, t: Identifier ::
              HasPath(assets + n.sources, TestPath(g, t)) <==> g == NAVIGATION_DIRECTORY && t in ids
  {
    assert assets + [] == assets;
    forall i | 0 <= i < |n.sources| ensures !HasPath(assets, n.sources[i].path) {
      assert HasPath(n.sources, n.sources[i].path);
      var id :| id in n.paths && n.paths[id] == n.sources[i].path;
      NoTestAtFixedPaths(NAVIGATION_DIRECTORY, id);
    }
    forall g: Identifier, t: Identifier
      ensures HasPath(assets + n.sources, TestPath(g, t)) <==> g == NAVIGATION_DIRECTORY && t in ids {
      NoTestAtFixedPaths(g, t);
      HasPathInConcat(assets, n.sources, TestPath(g, t));
      TestMeetsCheck(n, ids, g, t);
    }
  }

  lemma TestMeetsCheck(n: Navigation, ids: set<string>, g: Identifier, t: Identifier)
    requires Placed(n, ids)
    ensures HasPath(n.sources, TestPath(g, t)) <==> g == NAVIGATION_DIRECTORY && t in ids
  {
    if HasPath(n.sources, TestPath(g, t)) {
      var id :| id in n.paths && n.paths[id] == TestPath(g, t);
      PathIsInjective(g, t, NAVIGATION_DIRECTORY, id);
    }
    if g == NAVIGATION_DIRECTORY && t in ids {
      assert n.paths[t] == TestPath(g, t);
    }
  }

  lemma ValidatedFits(s: Scoped, base: seq<FileChange>, ids: set<string>)
    requires Validated(s)
    requires forall t: Identifier :: HasPath(base, TestPath(s.goalId, t)) <==>
             s.goalId == NAVIGATION_DIRECTORY && t in ids
    ensures GoalFits(Start(base), s, 0) <==> !MeetsCheck(s, ids)
  {
    var c :| ValidContract(c) && s == Scope(s.goalId, c);
    ScopedGoalFits(Start(base), s.goalId, c);
  }

  /**
   Validated contracts compile together with the route checks if and only if their goal ids differ and no goal named
   like the directory of the checks has a test named like one of them.
   */
  lemma ScopedGoalsCompile(goals: seq<Scoped>, assets: Sources, suite: Option<RouteSuite>, short: Shortener,
                           check: Checker, source: Printer, sha: string -> string)
    requires FixedAssets(assets) && forall i :: 0 <= i < |goals| ==> Validated(goals[i])
    ensures Compile(goals, assets, [], RouteChecks(suite, short, check), source, sha).Ok? <==>
            && DistinctKeys(goals, GoalId)
            && forall i :: 0 <= i < |goals| ==> !MeetsCheck(goals[i], CheckIds(suite, short))
  {
    var n, ids := RouteChecks(suite, short, check), CheckIds(suite, short);
    RouteChecksPlaced(suite, short, check);
    BaseOf(assets, n, ids);
    var base := assets + n.sources;
    forall i | 0 <= i < |goals| ensures GoalFits(Start(base), goals[i], 0) <==> !MeetsCheck(goals[i], ids) {
      ValidatedFits(goals[i], base, ids);
    }
    CompilesExactlyWhen(goals, assets, [], n, source, sha);
  }

  /** The same of the whole suite, whatever order its goals come in. */
  lemma ValidatedSuiteCompiles(goals: seq<Scoped>, assets: Sources, suite: Option<RouteSuite>, short: Shortener,
                               check: Checker, source: Printer, sha: string -> string)
    requires FixedAssets(assets) && forall s :: s in goals ==> Validated(s)
    ensures CompileSuite(goals, assets, RouteChecks(suite, short, check), source, sha).Ok? <==>
            DistinctKeys(goals, GoalId) && forall s :: s in goals ==> !MeetsCheck(s, CheckIds(suite, short))
  {
    var sorted := Sort(goals, GoalId);
    SortKeepsElements(goals, GoalId);
    SameElements(sorted, goals);
    DistinctKeysReordered(sorted, goals, GoalId);
    ScopedGoalsCompile(sorted, assets, suite, short, check, source, sha);
  }

  lemma OneTestCollides(start: Progress, s: Scoped, t: Test, source: Printer)
    requires s.tests == [t] && GoodTest(s, t) && start.paths == map[] && start.names == map[] && start.keys == map[]
    requires HasPath(start.sources, TestPath(s.goalId, t.id))
    ensures AddGoals(start, [s], 0, {}, true, source) == Err(DuplicateTestPath(TestPath(s.goalId, t.id)))
  {
    assert AddTest(start, s, s.tests[0], true, source).Err?;
    assert [s][0] == s;
  }

  /** No validator reserves the directory's name: a valid goal of that name collides with any check of the suite. */
  lemma NavigationNameIsNotReserved(id: Identifier, assets: Sources, suite: Option<RouteSuite>, short: Shortener,
                                    check: Checker, source: Printer, sha: string -> string)
    requires FixedAssets(assets) && id in CheckIds(suite, short)
    ensures var c := Contract(["shows"], [Test(id, "shows", "shows", "")]);
            && ValidContract(c)
            && Compile([Scope(NAVIGATION_DIRECTORY, c)], assets, [], RouteChecks(suite, short, check), source, sha) ==
               Err(DuplicateTestPath(TestPath(NAVIGATION_DIRECTORY, id)))
  {
    var c := Contract(["shows"], [Test(id, "shows", "shows", "")]);
    var s, n := Scope(NAVIGATION_DIRECTORY, c), RouteChecks(suite, short, check);
    assert CriteriaOf(c.tests) == ["shows"];
    RouteChecksPlaced(suite, short, check);
    BaseOf(assets, n, CheckIds(suite, short));
    ScopedTestIsGood(NAVIGATION_DIRECTORY, c, 0);
    OneTestCollides(Start(assets + n.sources), s, c.tests[0], source);
  }
}
