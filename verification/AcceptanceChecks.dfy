/** Which route checks a suite runs, under which titles, and with which text. */
module AcceptanceChecks {
  import opened Common
  import opened Ordered
  import opened Acceptance
  import opened AcceptanceProofs
  import opened AcceptanceSuites
  import opened AcceptanceNavigation

  /** The check is listed under its title, and its file holds the text. */
  ghost predicate Checked(n: Navigation, id: Identifier, title: string, text: string) {
    && id in n.paths && n.paths[id] == TestPath(NAVIGATION_DIRECTORY, id)
    && id in n.names && n.names[id] == title
    && FileChange(TestPath(NAVIGATION_DIRECTORY, id), text) in n.sources
  }

  lemma {:induction false} PutHolds(files: seq<FileChange>, path: string, content: string)
    ensures FileChange(path, content) in Put(files, path, content)
    ensures forall f :: f in files && f.path != path ==> f in Put(files, path, content)
  {
    if files != [] {
      assert files == [files[0]] + files[1..];
      if files[0].path != path {
        PutHolds(files[1..], path, content);
      }
    }
  }

  lemma RegisterChecks(n: Navigation, id: Identifier, title: string, text: string)
    ensures Checked(Register(n, id, title, text), id, title, text)
    ensures forall other: Identifier, a, b :: other != id && Checked(n, other, a, b) ==>
              Checked(Register(n, id, title, text), other, a, b)
  {
    PutHolds(n.sources, TestPath(NAVIGATION_DIRECTORY, id), text);
    forall other: Identifier, a, b | other != id && Checked(n, other, a, b)
      ensures Checked(Register(n, id, title, text), other, a, b) {
      PathIsInjective(NAVIGATION_DIRECTORY, id, NAVIGATION_DIRECTORY, other);
    }
  }

  /** The short digests of the paths tell the routes of a suite apart. */
  ghost predicate ToldApart(suite: RouteSuite, short: Shortener) {
    forall i, j :: 0 <= i < j < |suite.routes| ==> short(suite.routes[i].path) != short(suite.routes[j].path)
  }

  function DirectIdOf(suite: RouteSuite, k: nat, short: Shortener): Identifier
    requires k < |suite.routes|
  {
    DirectId(suite.routes[k].path, short)
  }

  lemma DirectIdIs(path: string, short: Shortener)
    ensures |DirectId(path, short)| > 7 && DirectId(path, short)[7..] == short(path) && DirectId(path, short)[0] == 'd'
  {
  }

  /** The `k`-th route is loaded directly. */
  ghost predicate LoadsRoute(n: Navigation, suite: RouteSuite, k: nat, short: Shortener, check: Checker)
    requires k < |suite.routes|
  {
    var title := DirectTitle(suite.routes[k]);
    Checked(n, DirectIdOf(suite, k, short), title, check(title, [suite.routes[k]]))
  }

  lemma LoadStays(n: Navigation, suite: RouteSuite, k: nat, i: nat, short: Shortener, check: Checker)
    requires k < i < |suite.routes| && ToldApart(suite, short) && LoadsRoute(n, suite, k, short, check)
    ensures LoadsRoute(WithDirect(n, suite.routes[i], short, check), suite, k, short, check)
  {
    var title := DirectTitle(suite.routes[i]);
    DirectIdIs(suite.routes[k].path, short);
    DirectIdIs(suite.routes[i].path, short);
    RegisterChecks(n, DirectIdOf(suite, i, short), title, check(title, [suite.routes[i]]));
  }

  lemma NewLoad(n: Navigation, suite: RouteSuite, k: nat, short: Shortener, check: Checker)
    requires k < |suite.routes|
    ensures LoadsRoute(WithDirect(n, suite.routes[k], short, check), suite, k, short, check)
  {
    var title := DirectTitle(suite.routes[k]);
    RegisterChecks(n, DirectIdOf(suite, k, short), title, check(title, [suite.routes[k]]));
  }

  /** The first `i` routes are loaded. */
  ghost predicate LoadsFirst(n: Navigation, suite: RouteSuite, i: nat, short: Shortener, check: Checker)
    requires i <= |suite.routes|
  {
    forall k :: 0 <= k < i ==> LoadsRoute(n, suite, k, short, check)
  }

  lemma NextLoads(earlier: Navigation, later: Navigation, suite: RouteSuite, i: nat, short: Shortener, check: Checker)
    requires i < |suite.routes| && ToldApart(suite, short)
    requires later == WithDirect(earlier, suite.routes[i], short, check)
    requires LoadsFirst(earlier, suite, i, short, check)
    ensures LoadsFirst(later, suite, i + 1, short, check)
  {
    forall k | 0 <= k <= i ensures LoadsRoute(later, suite, k, short, check) {
      if k < i {
        LoadStays(earlier, suite, k, i, short, check);
      } else {
        NewLoad(earlier, suite, k, short, check);
      }
    }
  }

  /** One direct load after another. */
  ghost predicate Steps(steps: seq<Navigation>, suite: RouteSuite, short: Shortener, check: Checker) {
    |steps| == |suite.routes| + 1
    && forall k :: 0 <= k < |suite.routes| ==> steps[k + 1] == WithDirect(steps[k], suite.routes[k], short, check)
  }

  lemma {:induction false} StepsLoad(steps: seq<Navigation>, suite: RouteSuite, i: nat, short: Shortener,
                                     check: Checker)
    requires Steps(steps, suite, short, check) && ToldApart(suite, short) && i <= |suite.routes|
    ensures LoadsFirst(steps[i], suite, i, short, check)
  {
    if i > 0 {
      StepsLoad(steps, suite, i - 1, short, check);
      NextLoads(steps[i - 1], steps[i], suite, i - 1, short, check);
    }
  }

  lemma DirectChecksAreSteps(suite: RouteSuite, short: Shortener, check: Checker) returns (steps: seq<Navigation>)
    ensures Steps(steps, suite, short, check)
    ensures steps[|suite.routes|] == DirectChecks(suite, |suite.routes|, short, check)
  {
    steps := seq(|suite.routes| + 1, i requires 0 <= i <= |suite.routes| => DirectChecks(suite, i, short, check));
  }

  lemma OthersStayChecked(n: Navigation, routes: seq<SuiteRoute>, check: Checker, id: Identifier, title: string,
                          text: string)
    requires Checked(n, id, title, text) && id[0] == 'd'
    ensures Checked(WithShared(n, routes, check), id, title, text)
  {
    var shared := Register(n, SHARED_ID, SHARED_TITLE, check(SHARED_TITLE, routes));
    var mobile := Register(shared, MOBILE_ID, MOBILE_TITLE, check(MOBILE_TITLE, routes));
    assert SHARED_ID[0] == 's' && MOBILE_ID[0] == 'm' && HISTORY_ID[0] == 'h';
    RegisterChecks(n, SHARED_ID, SHARED_TITLE, check(SHARED_TITLE, routes));
    RegisterChecks(shared, MOBILE_ID, MOBILE_TITLE, check(MOBILE_TITLE, routes));
    RegisterChecks(mobile, HISTORY_ID, HISTORY_TITLE, check(HISTORY_TITLE, routes));
  }

  /** A full suite whose routes are the root and something else. */
  ghost predicate Navigates(suite: RouteSuite) {
    && suite.shared
    && (exists r :: r in suite.routes && r.path == "/") && (exists r :: r in suite.routes && r.path != "/")
  }

  const LINKS_REACH := "FOMO navigation: root links reach every route"
  const NARROW_REACH := "FOMO navigation: 390px shared navigation reaches every route"
  const BACK_AND_FORWARD := "FOMO navigation: browser back and forward preserve every route identity"

  /** Like `Checked`, for an id that is spelled out. */
  ghost predicate Listed(n: Navigation, id: string, title: string, text: string) {
    IsIdentifier(id) && Checked(n, id, title, text)
  }

  /** The three checks of the navigation that the routes share. */
  ghost predicate ChecksShared(n: Navigation, routes: seq<SuiteRoute>, check: Checker) {
    && Listed(n, "shared-navigation", LINKS_REACH, check(LINKS_REACH, routes))
    && Listed(n, "mobile-navigation-390", NARROW_REACH, check(NARROW_REACH, routes))
    && Listed(n, "history-roundtrip", BACK_AND_FORWARD, check(BACK_AND_FORWARD, routes))
  }

  lemma SharedAreChecked(n: Navigation, routes: seq<SuiteRoute>, check: Checker)
    ensures ChecksShared(WithShared(n, routes, check), routes, check)
  {
    var shared := Register(n, SHARED_ID, SHARED_TITLE, check(SHARED_TITLE, routes));
    var mobile := Register(shared, MOBILE_ID, MOBILE_TITLE, check(MOBILE_TITLE, routes));
    assert SHARED_ID[0] == 's' && MOBILE_ID[0] == 'm' && HISTORY_ID[0] == 'h';
    RegisterChecks(n, SHARED_ID, SHARED_TITLE, check(SHARED_TITLE, routes));
    RegisterChecks(shared, MOBILE_ID, MOBILE_TITLE, check(MOBILE_TITLE, routes));
    RegisterChecks(mobile, HISTORY_ID, HISTORY_TITLE, check(HISTORY_TITLE, routes));
  }

  lemma NavigatesMeans(suite: RouteSuite)
    ensures Navigates(suite) <==> ChecksSharing(suite)
  {
    if Navigates(suite) {
      var r :| r in suite.routes && r.path == "/";
      var o :| o in suite.routes && o.path != "/";
      var i :| 0 <= i < |suite.routes| && suite.routes[i] == r;
      var j :| 0 <= j < |suite.routes| && suite.routes[j] == o;
      assert HasRoot(suite.routes) && HasOther(suite.routes);
    }
    if ChecksSharing(suite) {
      var i :| 0 <= i < |suite.routes| && suite.routes[i].path == "/";
      var j :| 0 <= j < |suite.routes| && suite.routes[j].path != "/";
      assert suite.routes[i] in suite.routes && suite.routes[j] in suite.routes;
    }
  }

  /** Every route of a suite is loaded directly by a check of its own, under its title. */
  lemma EveryRouteIsLoaded(suite: RouteSuite, short: Shortener, check: Checker, k: nat)
    requires ToldApart(suite, short) && k < |suite.routes|
    ensures LoadsRoute(RouteChecks(Some(suite), short, check), suite, k, short, check)
    ensures DirectTitle(suite.routes[k]) == "FOMO navigation direct load: " + suite.routes[k].title
  {
    var direct := DirectChecks(suite, |suite.routes|, short, check);
    var steps := DirectChecksAreSteps(suite, short, check);
    StepsLoad(steps, suite, |suite.routes|, short, check);
    assert LoadsRoute(direct, suite, k, short, check);
    DirectIdIs(suite.routes[k].path, short);
    var title := DirectTitle(suite.routes[k]);
    OthersStayChecked(direct, suite.routes, check, DirectIdOf(suite, k, short), title,
                      check(title, [suite.routes[k]]));
  }

  lemma CheckIdsAre(suite: RouteSuite, short: Shortener)
    ensures forall id :: id in CheckIds(Some(suite), short) <==>
              || id in DirectIds(suite, |suite.routes|, short)
              || (Navigates(suite) && id in {"shared-navigation", "mobile-navigation-390", "history-roundtrip"})
  {
    NavigatesMeans(suite);
  }

  /**
   The navigation that the routes share is checked exactly in a full suite with the root and another route: by links,
   on a narrow screen, and back and forward. Beside these there are only the direct loads.
   */
  lemma SharedNavigationIsChecked(suite: RouteSuite, short: Shortener, check: Checker)
    ensures var n, direct := RouteChecks(Some(suite), short, check), DirectIds(suite, |suite.routes|, short);
            && (Navigates(suite) ==> ChecksShared(n, suite.routes, check))
            && (forall id :: id in n.paths.Keys <==>
                  || id in direct
                  || (Navigates(suite) && id in {"shared-navigation", "mobile-navigation-390", "history-roundtrip"}))
  {
    NavigatesMeans(suite);
    SharedAreChecked(DirectChecks(suite, |suite.routes|, short, check), suite.routes, check);
    RouteChecksPlaced(Some(suite), short, check);
    CheckIdsAre(suite, short);
  }

  /** A suite that compiles emits its route checks, and lists them under their own names beside the goals' tests. */
  lemma RouteChecksAreEmitted(goals: seq<Scoped>, assets: Sources, additional: Sources, n: Navigation,
                              source: Printer, sha: string -> string, id: Identifier, title: string, text: string)
    requires Compile(goals, assets, additional, n, source, sha).Ok? && Checked(n, id, title, text)
    ensures var c := Compile(goals, assets, additional, n, source, sha).value;
            && c.navigationTestPathById == n.paths && c.navigationTestNameById == n.names
            && FileChange(TestPath(NAVIGATION_DIRECTORY, id), text) in c.changes
  {
    CompilesExactlyWhen(goals, assets, additional, n, source, sha);
    SuiteHolds(goals, assets, additional, n, source, sha, FileChange(TestPath(NAVIGATION_DIRECTORY, id), text));
  }
}
