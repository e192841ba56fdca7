/** With which error a suite does not compile: that of its first fault, which the error names truly. */
module AcceptanceFaults {
  import opened Common
  import opened Acceptance
  import opened AcceptanceProofs
  import opened AcceptanceSuites

  // ------------------------------------------------------------ in one goal

  /** What is wrong with the `j`-th test behind those from the `i`-th on, if anything. */
  function TestFault(p: Progress, s: Scoped, i: nat, j: nat): Option<CompileError>
    requires i <= j < |s.tests|
  {
    var t := s.tests[j];
    var key, path := PersistenceKey(s.goalId, t.acceptanceId), TestPath(s.goalId, t.id);
    if !(t.id in s.pathById && s.pathById[t.id] == path) then Some(InvalidTestPath(s.goalId, t.id))
    else if key in p.paths || exists k :: i <= k < j && s.tests[k].acceptanceId == t.acceptanceId then
      Some(DuplicateKey(key))
    else if HasPath(p.sources, path) || exists k :: i <= k < j && s.tests[k].id == t.id then
      Some(DuplicateTestPath(path))
    else if !(t.acceptanceId in s.keyById && s.keyById[t.acceptanceId] == key) then
      Some(InvalidKey(s.goalId, t.acceptanceId))
    else None
  }

  /** The first test that something is wrong with, and what. */
  ghost predicate FirstTestFault(p: Progress, s: Scoped, i: nat, j: int, error: CompileError) {
    && i <= j < |s.tests| && TestFault(p, s, i, j) == Some(error)
    && forall k :: i <= k < j ==> TestFault(p, s, i, k) == None
  }

  ghost predicate FailsInTests(p: Progress, s: Scoped, i: nat, error: CompileError) {
    exists j :: FirstTestFault(p, s, i, j, error)
  }

  lemma AddTestFails(p: Progress, s: Scoped, i: nat, single: bool, source: Printer)
    requires i < |s.tests| && Balanced(p, single, s.goalId)
    ensures match AddTest(p, s, s.tests[i], single, source)
            case Err(e) => TestFault(p, s, i, i) == Some(e)
            case Ok(_) => TestFault(p, s, i, i) == None
  {
    AddTestMeans(p, s, s.tests[i], single, source);
  }

  lemma TestFaultStays(p: Progress, s: Scoped, i: nat, j: nat, single: bool, source: Printer)
    requires i < j < |s.tests| && AddTest(p, s, s.tests[i], single, source).Ok?
    ensures TestFault(AddTest(p, s, s.tests[i], single, source).value, s, i + 1, j) == TestFault(p, s, i, j)
  {
    var t, u := s.tests[i], s.tests[j];
    KeyIsInjective(s.goalId, t.acceptanceId, s.goalId, u.acceptanceId);
    PathIsInjective(s.goalId, t.id, s.goalId, u.id);
    HasPathOfAppended(p.sources, FileChange(TestPath(s.goalId, t.id), source(t.title, t.steps)),
                      TestPath(s.goalId, u.id));
  }

  /** The tests of a goal fail to go in exactly with their first fault. */
  lemma {:induction false} AddTestsFail(p: Progress, s: Scoped, i: nat, single: bool, source: Printer,
                                        error: CompileError)
    requires i <= |s.tests| && Balanced(p, single, s.goalId)
    ensures AddTests(p, s, i, single, source) == Err(error) <==> FailsInTests(p, s, i, error)
    decreases |s.tests| - i
  {
    if i < |s.tests| {
      AddTestFails(p, s, i, single, source);
      AddTestMeans(p, s, s.tests[i], single, source);
      var added := AddTest(p, s, s.tests[i], single, source);
      if added.Ok? {
        var q, next := added.value, i + 1;
        AddTestsFail(q, s, next, single, source, error);
        forall j | next <= j < |s.tests| ensures TestFault(q, s, next, j) == TestFault(p, s, i, j) {
          TestFaultStays(p, s, i, j, single, source);
        }
        FirstFaultStays(p, q, s, i, next, error);
      } else {
        assert FirstTestFault(p, s, i, i, added.error);
      }
    }
  }

  lemma FirstFaultStays(p: Progress, q: Progress, s: Scoped, i: nat, next: nat, error: CompileError)
    requires i < |s.tests| && next == i + 1 && TestFault(p, s, i, i) == None
    requires forall j :: next <= j < |s.tests| ==> TestFault(q, s, next, j) == TestFault(p, s, i, j)
    ensures FailsInTests(q, s, next, error) <==> FailsInTests(p, s, i, error)
  {
    if FailsInTests(q, s, next, error) {
      var j :| FirstTestFault(q, s, next, j, error);
      assert FirstTestFault(p, s, i, j, error);
    }
    if FailsInTests(p, s, i, error) {
      var j :| FirstTestFault(p, s, i, j, error);
      assert forall k :: next <= k < j ==> TestFault(p, s, i, k) == None;
      assert FirstTestFault(q, s, next, j, error);
    }
  }

  // -------------------------------------------------------------- in a suite

  /** What is wrong with the `g`-th goal behind those from the `i`-th on. */
  ghost predicate GoalFault(p: Progress, goals: seq<Scoped>, i: nat, seen: set<string>, g: int, error: CompileError)
    requires i <= g < |goals|
  {
    if goals[g].goalId in seen || exists h :: i <= h < g && goals[h].goalId == goals[g].goalId then
      error == DuplicateGoal(goals[g].goalId)
    else FailsInTests(p, goals[g], 0, error)
  }

  /** The first goal that something is wrong with, and what. */
  ghost predicate FirstGoalFault(p: Progress, goals: seq<Scoped>, i: nat, seen: set<string>, g: int,
                                 error: CompileError) {
    && i <= g < |goals| && GoalFault(p, goals, i, seen, g, error)
    && forall h, e :: i <= h < g ==> !GoalFault(p, goals, i, seen, h, e)
  }

  ghost predicate FailsInGoals(p: Progress, goals: seq<Scoped>, i: nat, seen: set<string>, error: CompileError) {
    exists g :: FirstGoalFault(p, goals, i, seen, g, error)
  }

  lemma TestFaultOfOther(p: Progress, s: Scoped, u: Scoped, single: bool, source: Printer, error: CompileError)
    requires s.goalId != u.goalId
    ensures FailsInTests(Extended(p, s, 0, single, source), u, 0, error) <==> FailsInTests(p, u, 0, error)
  {
    var q := Extended(p, s, 0, single, source);
    forall j | 0 <= j < |u.tests| ensures TestFault(q, u, 0, j) == TestFault(p, u, 0, j) {
      OtherTestIsFree(p, s, u, u.tests[j], single, source);
    }
    if j :| FirstTestFault(q, u, 0, j, error) {
      assert FirstTestFault(p, u, 0, j, error);
    }
    if j :| FirstTestFault(p, u, 0, j, error) {
      assert FirstTestFault(q, u, 0, j, error);
    }
  }

  lemma GoalFaultStays(p: Progress, goals: seq<Scoped>, i: nat, seen: set<string>, g: nat, single: bool,
                       source: Printer, error: CompileError)
    requires i < g < |goals|
    ensures GoalFault(Extended(p, goals[i], 0, single, source), goals, i + 1, seen + {goals[i].goalId}, g, error) <==>
            GoalFault(p, goals, i, seen, g, error)
  {
    if goals[g].goalId != goals[i].goalId {
      TestFaultOfOther(p, goals[i], goals[g], single, source, error);
    }
  }

  lemma FirstGoalFaultStays(p: Progress, q: Progress, goals: seq<Scoped>, i: nat, next: nat, seen: set<string>,
                            known: set<string>, error: CompileError)
    requires i < |goals| && next == i + 1 && forall e :: !GoalFault(p, goals, i, seen, i, e)
    requires forall g, e | next <= g < |goals| ::
               GoalFault(q, goals, next, known, g, e) <==> GoalFault(p, goals, i, seen, g, e)
    ensures FailsInGoals(q, goals, next, known, error) <==> FailsInGoals(p, goals, i, seen, error)
  {
    if FailsInGoals(q, goals, next, known, error) {
      var g :| FirstGoalFault(q, goals, next, known, g, error);
      assert FirstGoalFault(p, goals, i, seen, g, error);
    }
    if FailsInGoals(p, goals, i, seen, error) {
      var g :| FirstGoalFault(p, goals, i, seen, g, error);
      assert forall h, e :: next <= h < g ==> !GoalFault(p, goals, i, seen, h, e);
      assert FirstGoalFault(q, goals, next, known, g, error);
    }
  }

  lemma OnlyFirstFault(p: Progress, goals: seq<Scoped>, i: nat, seen: set<string>, e: CompileError)
    requires i < |goals| && GoalFault(p, goals, i, seen, i, e)
    ensures forall g, error :: FirstGoalFault(p, goals, i, seen, g, error) ==> g == i && error == e
    ensures FirstGoalFault(p, goals, i, seen, i, e)
  {
    forall g, error | FirstGoalFault(p, goals, i, seen, g, error) ensures g == i && error == e {
      if goals[i].goalId !in seen && g == i {
        var j :| FirstTestFault(p, goals[i], 0, j, e);
        var k :| FirstTestFault(p, goals[i], 0, k, error);
        assert j == k;
      }
    }
  }

  /** A goal that goes in has no fault, and leaves those behind it with what they had. */
  lemma GoalGoesIn(p: Progress, goals: seq<Scoped>, i: nat, seen: set<string>, single: bool, source: Printer,
                   error: CompileError)
    requires i < |goals| && goals[i].goalId !in seen && forall e :: !FailsInTests(p, goals[i], 0, e)
    ensures FailsInGoals(Extended(p, goals[i], 0, single, source), goals, i + 1, seen + {goals[i].goalId}, error) <==>
            FailsInGoals(p, goals, i, seen, error)
  {
    var q, next, known := Extended(p, goals[i], 0, single, source), i + 1, seen + {goals[i].goalId};
    forall g, e | next <= g < |goals|
      ensures GoalFault(q, goals, next, known, g, e) <==> GoalFault(p, goals, i, seen, g, e) {
      GoalFaultStays(p, goals, i, seen, g, single, source, e);
    }
    FirstGoalFaultStays(p, q, goals, i, next, seen, known, error);
  }

  lemma GoalStops(p: Progress, goals: seq<Scoped>, i: nat, seen: set<string>, e: CompileError, error: CompileError)
    requires i < |goals| && GoalFault(p, goals, i, seen, i, e)
    ensures FailsInGoals(p, goals, i, seen, error) <==> error == e
  {
    OnlyFirstFault(p, goals, i, seen, e);
  }

  /** The goals of a suite fail to go in exactly with the first fault of the first of them that has one. */
  lemma {:induction false} AddGoalsFail(p: Progress, goals: seq<Scoped>, i: nat, seen: set<string>, single: bool,
                                        source: Printer, error: CompileError)
    requires i <= |goals| && (single ==> |goals| == 1)
    requires i < |goals| ==> Balanced(p, single, goals[i].goalId)
    ensures AddGoals(p, goals, i, seen, single, source) == Err(error) <==> FailsInGoals(p, goals, i, seen, error)
    decreases |goals| - i
  {
    if i < |goals| {
      var s := goals[i];
      var added := AddTests(p, s, 0, single, source);
      if s.goalId in seen {
        GoalStops(p, goals, i, seen, DuplicateGoal(s.goalId), error);
      } else if added.Err? {
        AddTestsFail(p, s, 0, single, source, added.error);
        GoalStops(p, goals, i, seen, added.error, error);
      } else {
        forall e ensures !FailsInTests(p, s, 0, e) {
          AddTestsFail(p, s, 0, single, source, e);
        }
        AddTestsMeans(p, s, 0, single, source);
        AddGoalsFail(Extended(p, s, 0, single, source), goals, i + 1, seen + {s.goalId}, single, source, error);
        GoalGoesIn(p, goals, i, seen, single, source, error);
      }
    }
  }

  /** Two dictionaries share a path. */
  ghost predicate Share(a: seq<FileChange>, b: seq<FileChange>) {
    exists f, g :: f in a && g in b && f.path == g.path
  }

  lemma OverlapIs(a: seq<FileChange>, b: seq<FileChange>)
    ensures Overlap(a, b) <==> Share(a, b)
  {
    if Overlap(a, b) {
      var i :| 0 <= i < |b| && HasPath(a, b[i].path);
      var j :| 0 <= j < |a| && a[j].path == b[i].path;
      assert a[j] in a && b[i] in b;
    }
    if f, g :| f in a && g in b && f.path == g.path {
      FileHasPath(a, f);
      var i :| 0 <= i < |b| && b[i] == g;
      assert HasPath(a, b[i].path);
    }
  }

  /**
   A suite is refused exactly with its first fault. Shared sources that meet come first; then, goal by goal and test by
   test, a repeated goal, a test that is not scoped to its path, a criterion or a test that its goal has twice, a path
   that is taken, and a criterion that is not scoped to its key.
   */
  lemma SuiteIsRefusedWith(goals: seq<Scoped>, assets: Sources, additional: Sources, navigation: Navigation,
                           source: Printer, sha: string -> string, error: CompileError)
    ensures Compile(goals, assets, additional, navigation, source, sha) == Err(error) <==>
            if Share(assets, additional) then error == DuplicateSourcePath
            else if Share(assets + additional, navigation.sources) then error == DuplicateNavigationPath
            else FailsInGoals(Start(assets + additional + navigation.sources), goals, 0, {}, error)
  {
    OverlapIs(assets, additional);
    OverlapIs(assets + additional, navigation.sources);
    if !Share(assets, additional) && !Share(assets + additional, navigation.sources) {
      AddGoalsFail(Start(assets + additional + navigation.sources), goals, 0, {}, |goals| == 1, source, error);
    }
  }
}
