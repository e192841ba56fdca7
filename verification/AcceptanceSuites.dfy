/** Whole suites: when they compile, what they hold, and how they are made of their goals compiled alone. */
module AcceptanceSuites {
  import opened Common
  import opened Ordered
  import opened Acceptance
  import opened AcceptanceProofs

  // ------------------------------------------------ goals do not meet

  lemma {:induction false} TestPathsHave(s: Scoped, i: nat, key: string)
    requires i <= |s.tests|
    ensures key in TestPaths(s, i) <==>
            exists j :: i <= j < |s.tests| && key == PersistenceKey(s.goalId, s.tests[j].acceptanceId)
    decreases |s.tests| - i
  {
    if i < |s.tests| {
      TestPathsHave(s, i + 1, key);
    }
  }

  lemma {:induction false} TestFilesHave(s: Scoped, i: nat, source: Printer, path: string)
    requires i <= |s.tests|
    ensures HasPath(TestFiles(s, i, source), path) <==>
            exists j :: i <= j < |s.tests| && path == TestPath(s.goalId, s.tests[j].id)
    decreases |s.tests| - i
  {
    if i < |s.tests| {
      TestFilesHave(s, i + 1, source, path);
      var f := FileChange(TestPath(s.goalId, s.tests[i].id), source(s.tests[i].title, s.tests[i].steps));
      HasPathInConcat([f], TestFiles(s, i + 1, source), path);
      assert [f][0] == f;
    }
  }

  lemma OtherTestIsFree(p: Progress, s: Scoped, u: Scoped, t: Test, single: bool, source: Printer)
    requires s.goalId != u.goalId
    ensures var q, key, path := Extended(p, s, 0, single, source), PersistenceKey(u.goalId, t.acceptanceId),
            TestPath(u.goalId, t.id);
            (key in q.paths <==> key in p.paths) && (HasPath(q.sources, path) <==> HasPath(p.sources, path))
  {
    var key, path := PersistenceKey(u.goalId, t.acceptanceId), TestPath(u.goalId, t.id);
    TestPathsHave(s, 0, key);
    TestFilesHave(s, 0, source, path);
    HasPathInConcat(p.sources, TestFiles(s, 0, source), path);
    forall j | 0 <= j < |s.tests|
      ensures key != PersistenceKey(s.goalId, s.tests[j].acceptanceId) && path != TestPath(s.goalId, s.tests[j].id)
    {
      KeyIsInjective(u.goalId, t.acceptanceId, s.goalId, s.tests[j].acceptanceId);
      PathIsInjective(u.goalId, t.id, s.goalId, s.tests[j].id);
    }
  }

  lemma OtherGoalFits(p: Progress, s: Scoped, u: Scoped, single: bool, source: Printer)
    requires s.goalId != u.goalId
    ensures GoalFits(Extended(p, s, 0, single, source), u, 0) <==> GoalFits(p, u, 0)
  {
    forall j | 0 <= j < |u.tests|
      ensures Free(Extended(p, s, 0, single, source), u, u.tests[j]) <==> Free(p, u, u.tests[j])
    {
      OtherTestIsFree(p, s, u, u.tests[j], single, source);
    }
  }

  // -------------------------------------------------- when a suite compiles

  /** The goals from the `i`-th on are new, differ from each other, and each fits what was there before them all. */
  predicate SuiteFits(p: Progress, goals: seq<Scoped>, i: nat, seen: set<string>)
    requires i <= |goals|
  {
    && (forall j :: i <= j < |goals| ==> goals[j].goalId !in seen && GoalFits(p, goals[j], 0))
    && (forall j, k :: i <= j < k < |goals| ==> goals[j].goalId != goals[k].goalId)
  }

  function ExtendedAll(p: Progress, goals: seq<Scoped>, i: nat, single: bool, source: Printer): Progress
    requires i <= |goals|
    decreases |goals| - i
  {
    if i == |goals| then p else ExtendedAll(Extended(p, goals[i], 0, single, source), goals, i + 1, single, source)
  }

  lemma SuiteFitsStep(p: Progress, goals: seq<Scoped>, i: nat, seen: set<string>, single: bool, source: Printer)
    requires i < |goals| && goals[i].goalId !in seen && GoalFits(p, goals[i], 0)
    ensures SuiteFits(p, goals, i, seen) <==>
            SuiteFits(Extended(p, goals[i], 0, single, source), goals, i + 1, seen + {goals[i].goalId})
  {
    var q := Extended(p, goals[i], 0, single, source);
    if forall j :: i < j < |goals| ==> goals[i].goalId != goals[j].goalId {
      forall j | i < j < |goals| ensures GoalFits(q, goals[j], 0) <==> GoalFits(p, goals[j], 0) {
        OtherGoalFits(p, goals[i], goals[j], single, source);
      }
    }
  }

  lemma {:induction false} AddGoalsMeans(p: Progress, goals: seq<Scoped>, i: nat, seen: set<string>, single: bool,
                                         source: Printer)
    requires i <= |goals| && (single ==> |goals| == 1)
    requires i < |goals| ==> Balanced(p, single, goals[i].goalId)
    ensures AddGoals(p, goals, i, seen, single, source).Ok? <==> SuiteFits(p, goals, i, seen)
    ensures SuiteFits(p, goals, i, seen) ==>
              AddGoals(p, goals, i, seen, single, source).value == ExtendedAll(p, goals, i, single, source)
    decreases |goals| - i
  {
    if i < |goals| && goals[i].goalId !in seen {
      AddTestsMeans(p, goals[i], 0, single, source);
      if GoalFits(p, goals[i], 0) {
        SuiteFitsStep(p, goals, i, seen, single, source);
        AddGoalsMeans(Extended(p, goals[i], 0, single, source), goals, i + 1, seen + {goals[i].goalId}, single, source);
      }
    }
  }

  /** A suite compiles exactly when its goals differ and each of them fits the shared sources. */
  lemma CompilesExactlyWhen(goals: seq<Scoped>, assets: Sources, additional: Sources, navigation: Navigation,
                            source: Printer, sha: string -> string)
    requires BaseSources(assets, additional, navigation).Ok?
    ensures var start := Start(BaseSources(assets, additional, navigation).value);
            var r := Compile(goals, assets, additional, navigation, source, sha);
            && (r.Ok? <==> SuiteFits(start, goals, 0, {}))
            && (r.Ok? ==> r.value == Finish(ExtendedAll(start, goals, 0, |goals| == 1, source), navigation, sha))
  {
    AddGoalsMeans(Start(BaseSources(assets, additional, navigation).value), goals, 0, {}, |goals| == 1, source);
  }

  /** It compiles exactly when its goals differ and each of them compiles alone. */
  lemma SuiteCompilesWhenItsGoalsDo(goals: seq<Scoped>, assets: Sources, additional: Sources, navigation: Navigation,
                                    source: Printer, sha: string -> string)
    requires goals != []
    ensures Compile(goals, assets, additional, navigation, source, sha).Ok? <==>
            && (forall j, k :: 0 <= j < k < |goals| ==> goals[j].goalId != goals[k].goalId)
            && (forall j :: 0 <= j < |goals| ==> Compile([goals[j]], assets, additional, navigation, source, sha).Ok?)
  {
    if BaseSources(assets, additional, navigation).Ok? {
      var start := Start(BaseSources(assets, additional, navigation).value);
      CompilesExactlyWhen(goals, assets, additional, navigation, source, sha);
      forall j | 0 <= j < |goals|
        ensures Compile([goals[j]], assets, additional, navigation, source, sha).Ok? <==> GoalFits(start, goals[j], 0) {
        CompilesExactlyWhen([goals[j]], assets, additional, navigation, source, sha);
        assert [goals[j]][0] == goals[j];
      }
    } else {
      assert Compile([goals[0]], assets, additional, navigation, source, sha).Err?;
    }
  }

  // ------------------------------------------------------- what it holds

  lemma {:induction false} SuiteSources(p: Progress, goals: seq<Scoped>, i: nat, single: bool, source: Printer,
                                        f: FileChange)
    requires i <= |goals|
    ensures f in ExtendedAll(p, goals, i, single, source).sources <==>
            f in p.sources || exists j :: i <= j < |goals| && f in TestFiles(goals[j], 0, source)
    decreases |goals| - i
  {
    if i < |goals| {
      SuiteSources(Extended(p, goals[i], 0, single, source), goals, i + 1, single, source, f);
    }
  }

  /** Every suite holds the shared sources and the test files of its goals, and nothing else. */
  lemma SuiteHolds(goals: seq<Scoped>, assets: Sources, additional: Sources, navigation: Navigation, source: Printer,
                   sha: string -> string, f: FileChange)
    requires Compile(goals, assets, additional, navigation, source, sha).Ok?
    ensures f in Compile(goals, assets, additional, navigation, source, sha).value.changes <==>
            f in BaseSources(assets, additional, navigation).value || exists j ::
                0 <= j < |goals| && f in TestFiles(goals[j], 0, source)
  {
    var base := BaseSources(assets, additional, navigation).value;
    CompilesExactlyWhen(goals, assets, additional, navigation, source, sha);
    SuiteSources(Start(base), goals, 0, |goals| == 1, source, f);
    SortHasMember(ExtendedAll(Start(base), goals, 0, |goals| == 1, source).sources, ChangePath, f);
  }

  lemma GoalAloneHolds(s: Scoped, assets: Sources, additional: Sources, navigation: Navigation, source: Printer,
                       sha: string -> string, f: FileChange)
    requires Compile([s], assets, additional, navigation, source, sha).Ok?
    ensures f in Compile([s], assets, additional, navigation, source, sha).value.changes <==>
            f in BaseSources(assets, additional, navigation).value || f in TestFiles(s, 0, source)
  {
    SuiteHolds([s], assets, additional, navigation, source, sha, f);
    assert [s][0] == s;
  }

  /** A file is in the suite exactly when it is in one of the goals compiled alone. */
  lemma SuiteIsItsGoalsTogether(goals: seq<Scoped>, assets: Sources, additional: Sources, navigation: Navigation,
                                source: Printer, sha: string -> string, f: FileChange)
    requires goals != [] && Compile(goals, assets, additional, navigation, source, sha).Ok?
    ensures forall j :: 0 <= j < |goals| ==> Compile([goals[j]], assets, additional, navigation, source, sha).Ok?
    ensures f in Compile(goals, assets, additional, navigation, source, sha).value.changes <==>
            exists j :: 0 <= j < |goals|
                && f in Compile([goals[j]], assets, additional, navigation, source, sha).value.changes
  {
    SuiteCompilesWhenItsGoalsDo(goals, assets, additional, navigation, source, sha);
    SuiteHolds(goals, assets, additional, navigation, source, sha, f);
    forall j | 0 <= j < |goals|
      ensures f in Compile([goals[j]], assets, additional, navigation, source, sha).value.changes <==>
              f in BaseSources(assets, additional, navigation).value || f in TestFiles(goals[j], 0, source) {
      GoalAloneHolds(goals[j], assets, additional, navigation, source, sha, f);
    }
    if f in BaseSources(assets, additional, navigation).value {
      assert f in Compile([goals[0]], assets, additional, navigation, source, sha).value.changes;
    }
  }

  lemma FileHasPath(files: seq<FileChange>, f: FileChange)
    requires f in files
    ensures HasPath(files, f.path)
  {
    var i :| 0 <= i < |files| && files[i] == f;
  }

  lemma DifferentGoalsDifferentFiles(s: Scoped, u: Scoped, source: Printer, f: FileChange)
    requires s.goalId != u.goalId && f in TestFiles(s, 0, source)
    ensures f !in TestFiles(u, 0, source)
  {
    FileHasPath(TestFiles(s, 0, source), f);
    TestFilesHave(s, 0, source, f.path);
    TestFilesHave(u, 0, source, f.path);
    var a :| 0 <= a < |s.tests| && f.path == TestPath(s.goalId, s.tests[a].id);
    forall b | 0 <= b < |u.tests| ensures f.path != TestPath(u.goalId, u.tests[b].id) {
      PathIsInjective(s.goalId, s.tests[a].id, u.goalId, u.tests[b].id);
    }
    NoFileWithoutPath(TestFiles(u, 0, source), f);
  }

  lemma NoFileWithoutPath(files: seq<FileChange>, f: FileChange)
    requires !HasPath(files, f.path)
    ensures f !in files
  {
    assert forall i :: 0 <= i < |files| ==> files[i].path != f.path;
  }

  lemma GoalsOfSuiteDiffer(goals: seq<Scoped>, assets: Sources, additional: Sources, navigation: Navigation,
                           source: Printer, sha: string -> string)
    requires Compile(goals, assets, additional, navigation, source, sha).Ok?
    ensures forall j, k :: 0 <= j < k < |goals| ==> goals[j].goalId != goals[k].goalId
  {
    CompilesExactlyWhen(goals, assets, additional, navigation, source, sha);
  }

  /** Two goals of a suite share nothing but the shared sources. */
  lemma GoalsShareOnlyTheBase(goals: seq<Scoped>, j: nat, k: nat, assets: Sources, additional: Sources,
                              navigation: Navigation,
                              source: Printer, sha: string -> string, f: FileChange)
    requires j < k < |goals| && Compile(goals, assets, additional, navigation, source, sha).Ok?
    requires Compile([goals[j]], assets, additional, navigation, source, sha).Ok?
    requires Compile([goals[k]], assets, additional, navigation, source, sha).Ok?
    ensures f in Compile([goals[j]], assets, additional, navigation, source, sha).value.changes
            && f in Compile([goals[k]], assets, additional, navigation, source, sha).value.changes
            <==> f in BaseSources(assets, additional, navigation).value
  {
    GoalAloneHolds(goals[j], assets, additional, navigation, source, sha, f);
    GoalAloneHolds(goals[k], assets, additional, navigation, source, sha, f);
    GoalsOfSuiteDiffer(goals, assets, additional, navigation, source, sha);
    if f in TestFiles(goals[j], 0, source) {
      DifferentGoalsDifferentFiles(goals[j], goals[k], source, f);
    }
  }

  // ------------------------------------------------ criteria and their files

  /** Different keys have different paths, and every path has a file; no two files share a path. */
  ghost predicate Wired(p: Progress) {
    && (forall k :: k in p.paths ==> HasPath(p.sources, p.paths[k]))
    && (forall k, l :: k in p.paths && l in p.paths && p.paths[k] == p.paths[l] ==> k == l)
    && UniquePaths(p.sources)
  }

  lemma AddTestKeepsWiring(p: Progress, s: Scoped, t: Test, single: bool, source: Printer)
    requires Wired(p) && AddTest(p, s, t, single, source).Ok?
    ensures Wired(AddTest(p, s, t, single, source).value)
  {
    var q := AddTest(p, s, t, single, source).value;
    var path := TestPath(s.goalId, t.id);
    var f := FileChange(path, source(t.title, t.steps));
    forall k | k in q.paths ensures HasPath(q.sources, q.paths[k]) {
      HasPathOfAppended(p.sources, f, q.paths[k]);
    }
    forall i, j | 0 <= i < j < |q.sources| ensures q.sources[i].path != q.sources[j].path {
      if j == |p.sources| {
        assert HasPath(p.sources, p.sources[i].path);
      }
    }
  }

  /** Nothing that is in a dictionary is lost or changed later. */
  ghost predicate Grows(p: Progress, q: Progress) {
    && (forall k :: k in p.paths ==> k in q.paths && q.paths[k] == p.paths[k])
    && (forall k :: k in p.names ==> k in q.names && q.names[k] == p.names[k])
    && (forall f :: f in p.sources ==> f in q.sources)
  }

  lemma {:induction false} AddTestsKeeps(p: Progress, s: Scoped, i: nat, single: bool, source: Printer)
    requires i <= |s.tests| && Wired(p) && AddTests(p, s, i, single, source).Ok?
    ensures Wired(AddTests(p, s, i, single, source).value) && Grows(p, AddTests(p, s, i, single, source).value)
    decreases |s.tests| - i
  {
    if i < |s.tests| {
      AddTestKeepsWiring(p, s, s.tests[i], single, source);
      AddTestsKeeps(AddTest(p, s, s.tests[i], single, source).value, s, i + 1, single, source);
    }
  }

  lemma {:induction false} AddGoalsKeeps(p: Progress, goals: seq<Scoped>, i: nat, seen: set<string>, single: bool,
                                         source: Printer)
    requires i <= |goals| && Wired(p) && AddGoals(p, goals, i, seen, single, source).Ok?
    ensures Wired(AddGoals(p, goals, i, seen, single, source).value)
            && Grows(p, AddGoals(p, goals, i, seen, single, source).value)
    decreases |goals| - i
  {
    if i < |goals| {
      AddTestsKeeps(p, goals[i], 0, single, source);
      AddGoalsKeeps(AddTests(p, goals[i], 0, single, source).value, goals, i + 1, seen + {goals[i].goalId}, single,
                    source);
    }
  }

  /** The dictionaries tell of the test: its path, its title, its file. */
  ghost predicate Emitted(p: Progress, s: Scoped, t: Test, source: Printer) {
    var key, path := PersistenceKey(s.goalId, t.acceptanceId), TestPath(s.goalId, t.id);
    && key in p.paths && p.paths[key] == path && key in p.names && p.names[key] == t.title
    && FileChange(path, source(t.title, t.steps)) in p.sources
  }

  lemma {:induction false} AddTestsEmits(p: Progress, s: Scoped, i: nat, j: nat, single: bool, source: Printer)
    requires i <= j < |s.tests| && Wired(p) && AddTests(p, s, i, single, source).Ok?
    ensures Emitted(AddTests(p, s, i, single, source).value, s, s.tests[j], source)
    decreases j - i
  {
    var q := AddTest(p, s, s.tests[i], single, source).value;
    AddTestKeepsWiring(p, s, s.tests[i], single, source);
    if i == j {
      assert q.sources[|p.sources|] in q.sources;
      AddTestsKeeps(q, s, i + 1, single, source);
    } else {
      AddTestsEmits(q, s, i + 1, j, single, source);
    }
  }

  lemma {:induction false} AddGoalsEmits(p: Progress, goals: seq<Scoped>, i: nat, g: nat, j: nat, seen: set<string>,
                                         single: bool, source: Printer)
    requires i <= g < |goals| && j < |goals[g].tests| && Wired(p) && AddGoals(p, goals, i, seen, single, source).Ok?
    ensures Emitted(AddGoals(p, goals, i, seen, single, source).value, goals[g], goals[g].tests[j], source)
    decreases g - i
  {
    var q := AddTests(p, goals[i], 0, single, source).value;
    AddTestsKeeps(p, goals[i], 0, single, source);
    if i == g {
      AddTestsEmits(p, goals[i], 0, j, single, source);
      AddGoalsKeeps(q, goals, i + 1, seen + {goals[i].goalId}, single, source);
    } else {
      AddGoalsEmits(q, goals, i + 1, g, j, seen + {goals[i].goalId}, single, source);
    }
  }

  lemma UniqueConcat(a: Sources, b: Sources)
    requires !Overlap(a, b)
    ensures UniquePaths(a + b)
  {
    forall i, j | 0 <= i < j < |a + b| ensures (a + b)[i].path != (a + b)[j].path {
      if i < |a| <= j {
        assert !HasPath(a, b[j - |a|].path);
      }
    }
  }

  lemma BaseIsUnique(assets: Sources, additional: Sources, navigation: Navigation)
    requires BaseSources(assets, additional, navigation).Ok?
    ensures UniquePaths(BaseSources(assets, additional, navigation).value)
  {
    UniqueConcat(assets, additional);
    UniqueConcat(assets + additional, navigation.sources);
  }

  lemma UniquePathsAreKeys(files: seq<FileChange>)
    ensures DistinctKeys(files, ChangePath) <==> UniquePaths(files)
  {
    assert forall i :: 0 <= i < |files| ==> ChangePath(files[i]) == files[i].path;
  }

  /** Different criteria run different files: keys map one to one onto paths. */
  lemma CriteriaAreOneToOne(goals: seq<Scoped>, assets: Sources, additional: Sources, navigation: Navigation,
                            source: Printer, sha: string -> string,
                            k: string, l: string)
    requires Compile(goals, assets, additional, navigation, source, sha).Ok?
    requires k in Compile(goals, assets, additional, navigation, source, sha).value.testPathByAcceptanceId
    requires l in Compile(goals, assets, additional, navigation, source, sha).value.testPathByAcceptanceId
    ensures var paths := Compile(goals, assets, additional, navigation, source, sha).value.testPathByAcceptanceId;
            paths[k] == paths[l] <==> k == l
  {
    BaseIsUnique(assets, additional, navigation);
    AddGoalsKeeps(Start(BaseSources(assets, additional, navigation).value), goals, 0, {}, |goals| == 1, source);
  }

  /** Every test of every goal is emitted under its own key, at its own path, with its own text. */
  lemma EveryTestIsEmitted(goals: seq<Scoped>, g: nat, j: nat, assets: Sources, additional: Sources,
                           navigation: Navigation, source: Printer, sha: string -> string)
    requires Compile(goals, assets, additional, navigation, source, sha).Ok? && g < |goals| && j < |goals[g].tests|
    ensures var c, t := Compile(goals, assets, additional, navigation, source, sha).value, goals[g].tests[j];
            var key, path := PersistenceKey(goals[g].goalId, t.acceptanceId), TestPath(goals[g].goalId, t.id);
            && key in c.testPathByAcceptanceId && c.testPathByAcceptanceId[key] == path
            && key in c.testNameByAcceptanceId && c.testNameByAcceptanceId[key] == t.title
            && FileChange(path, source(t.title, t.steps)) in c.changes
  {
    var start := Start(BaseSources(assets, additional, navigation).value);
    BaseIsUnique(assets, additional, navigation);
    AddGoalsEmits(start, goals, 0, g, j, {}, |goals| == 1, source);
    var t := goals[g].tests[j];
    SortHasMember(AddGoals(start, goals, 0, {}, |goals| == 1, source).value.sources, ChangePath,
                  FileChange(TestPath(goals[g].goalId, t.id), source(t.title, t.steps)));
  }

  lemma {:induction false} AddGoalsBalances(p: Progress, goals: seq<Scoped>, i: nat, seen: set<string>, single: bool,
                                            source: Printer, g: Identifier)
    requires i <= |goals| && (single ==> |goals| == 1 && goals[0].goalId == g)
    requires Balanced(p, single, g) && AddGoals(p, goals, i, seen, single, source).Ok?
    ensures Balanced(AddGoals(p, goals, i, seen, single, source).value, single, g)
    decreases |goals| - i
  {
    if i < |goals| {
      AddTestsMeans(p, goals[i], 0, single, source);
      AddGoalsBalances(AddTests(p, goals[i], 0, single, source).value, goals, i + 1, seen + {goals[i].goalId}, single,
                       source, g);
    }
  }

  /** A criterion is listed by its own name in a suite of one goal, by its key in any other, always with its key. */
  lemma EveryCriterionIsListed(goals: seq<Scoped>, g: nat, j: nat, assets: Sources, additional: Sources,
                               navigation: Navigation, source: Printer, sha: string -> string)
    requires Compile(goals, assets, additional, navigation, source, sha).Ok? && g < |goals| && j < |goals[g].tests|
    ensures var keys, t := Compile(goals, assets, additional, navigation, source, sha).value.acceptanceKeyById,
            goals[g].tests[j];
            var name := Label(goals[g], t, |goals| == 1);
            name in keys && keys[name] == PersistenceKey(goals[g].goalId, t.acceptanceId)
  {
    var start, single, s := Start(BaseSources(assets, additional, navigation).value), |goals| == 1, goals[g];
    var keys := AddGoals(start, goals, 0, {}, single, source).value.keys;
    AddGoalsBalances(start, goals, 0, {}, single, source, s.goalId);
    EveryTestIsEmitted(goals, g, j, assets, additional, navigation, source, sha);
    var key := PersistenceKey(s.goalId, s.tests[j].acceptanceId);
    assert key in keys.Values;
    var k :| k in keys && keys[k] == key;
    if single {
      SameFront(s.goalId + [':'], k, s.tests[j].acceptanceId);
    }
  }

  // ------------------------------------------------------------- the digests

  lemma {:induction false} DigestsCover(files: seq<FileChange>, sha: string -> string)
    requires UniquePaths(files)
    ensures forall path :: path in Digests(files, sha) <==> HasPath(files, path)
    ensures forall f :: f in files ==> f.path in Digests(files, sha) && Digests(files, sha)[f.path] == sha(f.content)
    decreases |files|
  {
    if files != [] {
      var front, last := files[..|files| - 1], files[|files| - 1];
      assert files == front + [last];
      DigestsCover(front, sha);
      forall path ensures path in Digests(files, sha) <==> HasPath(files, path) {
        HasPathOfAppended(front, last, path);
      }
    }
  }

  /** The files come in path order, each path once; the digests are those of exactly these files. */
  lemma DigestsCoverTheFiles(goals: seq<Scoped>, assets: Sources, additional: Sources, navigation: Navigation,
                             source: Printer, sha: string -> string)
    requires Compile(goals, assets, additional, navigation, source, sha).Ok?
    ensures var c := Compile(goals, assets, additional, navigation, source, sha).value;
            && Ascending(c.changes, ChangePath)
            && (forall path :: path in c.sha256ByPath <==> HasPath(c.changes, path))
            && (forall f :: f in c.changes ==> f.path in c.sha256ByPath && c.sha256ByPath[f.path] == sha(f.content))
  {
    var start := Start(BaseSources(assets, additional, navigation).value);
    BaseIsUnique(assets, additional, navigation);
    AddGoalsKeeps(start, goals, 0, {}, |goals| == 1, source);
    var sources := AddGoals(start, goals, 0, {}, |goals| == 1, source).value.sources;
    var sorted := Sort(sources, ChangePath);
    UniquePathsAreKeys(sources);
    SortAscends(sources, ChangePath);
    forall i, j | 0 <= i < j < |sorted| ensures sorted[i].path != sorted[j].path {
      AscendingKeysDiffer(sorted, ChangePath, i, j);
    }
    DigestsCover(sorted, sha);
  }

  // --------------------------------------------------------------- the order

  /** Whenever a suite compiles, it compiles to the same in any order of its goals. */
  lemma SuiteIgnoresOrder(a: seq<Scoped>, b: seq<Scoped>, assets: Sources, navigation: Navigation, source: Printer,
                          sha: string -> string)
    requires multiset(a) == multiset(b) && CompileSuite(a, assets, navigation, source, sha).Ok?
    ensures CompileSuite(b, assets, navigation, source, sha) == CompileSuite(a, assets, navigation, source, sha)
  {
    var sorted := Sort(a, GoalId);
    GoalsOfSuiteDiffer(sorted, assets, [], navigation, source, sha);
    assert DistinctKeys(sorted, GoalId);
    SortKeepsElements(a, GoalId);
    DistinctKeysReordered(sorted, a, GoalId);
    DistinctKeysReordered(a, b, GoalId);
    SameElements(a, b);
    SortIsCanonical(a, b, GoalId);
  }

  // -------------------------------------------------- goals as they are scoped

  function CriteriaOf(tests: seq<Test>): (ids: seq<Identifier>)
    ensures |ids| == |tests| && forall i :: 0 <= i < |tests| ==> ids[i] == tests[i].acceptanceId
  {
    if tests == [] then [] else [tests[0].acceptanceId] + CriteriaOf(tests[1..])
  }

  /** Criteria and tests have distinct identifiers, and each criterion has exactly one test. */
  predicate ValidContract(c: Contract) {
    && Distinct(c.criteria)
    && (forall i, j :: 0 <= i < j < |c.tests| ==> c.tests[i].id != c.tests[j].id)
    && multiset(c.criteria) == multiset(CriteriaOf(c.tests))
  }

  lemma TestsAreByCriterion(c: Contract)
    requires ValidContract(c)
    ensures forall i, j :: 0 <= i < j < |c.tests| ==> c.tests[i].acceptanceId != c.tests[j].acceptanceId
    ensures forall i :: 0 <= i < |c.tests| ==> c.tests[i].acceptanceId in c.criteria
  {
    var criteria := CriteriaOf(c.tests);
    SameElements(c.criteria, criteria);
    forall i, j | 0 <= i < j < |c.tests| ensures c.tests[i].acceptanceId != c.tests[j].acceptanceId {
      assert criteria[i] != criteria[j];
    }
    forall i | 0 <= i < |c.tests| ensures c.tests[i].acceptanceId in c.criteria {
      assert criteria[i] in criteria;
    }
  }

  /** The fixed verification assets lie where no test path leads. */
  predicate FixedAssets(assets: Sources) {
    forall i :: 0 <= i < |assets| ==> assets[i].path == ACCEPTANCE_CONFIG_PATH || assets[i].path == FOMO_HARNESS_PATH
  }

  lemma NoTestAtFixedPaths(g: Identifier, t: Identifier)
    ensures TestPath(g, t) != ACCEPTANCE_CONFIG_PATH && TestPath(g, t) != FOMO_HARNESS_PATH
  {
    var path, n := TestPath(g, t), |ACCEPTANCE_ROOT| + 1;
    assert path[6] == ACCEPTANCE_ROOT[6] == 'f' && FOMO_HARNESS_PATH[6] == 'h';
    assert path[n + |g|] == '/';
    assert |ACCEPTANCE_CONFIG_PATH| == n + |"fomo.config.ts"|;
    forall i | n <= i < |ACCEPTANCE_CONFIG_PATH| ensures ACCEPTANCE_CONFIG_PATH[i] != '/' {
      assert ACCEPTANCE_CONFIG_PATH[i] == "fomo.config.ts"[i - n];
    }
  }

  lemma ScopedTestIsGood(goalId: Identifier, c: Contract, i: nat)
    requires ValidContract(c) && i < |c.tests|
    ensures GoodTest(Scope(goalId, c), c.tests[i])
  {
    TestsAreByCriterion(c);
    assert c.tests[i].id in TestIds(c.tests);
  }

  lemma FitsWhenFree(start: Progress, s: Scoped)
    requires start.paths == map[] && forall j :: 0 <= j < |s.tests| ==> GoodTest(s, s.tests[j])
    requires forall j, k :: 0 <= j < k < |s.tests| ==>
               s.tests[j].id != s.tests[k].id && s.tests[j].acceptanceId != s.tests[k].acceptanceId
    ensures GoalFits(start, s, 0) <==>
            forall j :: 0 <= j < |s.tests| ==> !HasPath(start.sources, TestPath(s.goalId, s.tests[j].id))
  {
    forall j | 0 <= j < |s.tests|
      ensures Free(start, s, s.tests[j]) <==> !HasPath(start.sources, TestPath(s.goalId, s.tests[j].id))
    {
    }
  }

  /** A validated goal fits exactly when the paths of its tests are free. */
  lemma ScopedGoalFits(start: Progress, goalId: Identifier, c: Contract)
    requires ValidContract(c) && start.paths == map[]
    ensures GoalFits(start, Scope(goalId, c), 0) <==>
            forall j :: 0 <= j < |c.tests| ==> !HasPath(start.sources, TestPath(goalId, c.tests[j].id))
  {
    var s := Scope(goalId, c);
    TestsAreByCriterion(c);
    forall j | 0 <= j < |s.tests| ensures GoodTest(s, s.tests[j]) {
      ScopedTestIsGood(goalId, c, j);
    }
    FitsWhenFree(start, s);
  }
}
