/** The acceptance compiler (acceptance.py, goalgraph.py). */
module Acceptance {
  // Every test of every goal becomes one file at a path of its own, keyed by goal and criterion; any conflict stops the
  // compilation. The text of a test is a parameter.

  import opened Common
  import opened Ordered

  // ------------------------------------------------------------- identifiers

  predicate IsAlphanumeric(c: char) {
    'A' <= c <= 'Z' || 'a' <= c <= 'z' || '0' <= c <= '9'
  }

  predicate IsIdentifier(s: string) {
    && 1 <= |s| <= 64 && IsAlphanumeric(s[0])
    && forall i :: 0 <= i < |s| ==> IsAlphanumeric(s[i]) || s[i] == '_' || s[i] == '-'
  }

  type Identifier = s: string | IsIdentifier(s) witness "a"

  const ACCEPTANCE_ROOT := "tests/fomo-acceptance"
  const ACCEPTANCE_CONFIG_PATH := "tests/fomo-acceptance/fomo.config.ts"
  const FOMO_HARNESS_PATH := "tests/harness/starter.smoke.spec.ts"

  /** `acceptance_persistence_key`. */
  function PersistenceKey(goalId: Identifier, acceptanceId: Identifier): string {
    goalId + [':'] + acceptanceId
  }

  /** `acceptance_test_path`. */
  function TestPath(goalId: Identifier, testId: Identifier): string {
    ACCEPTANCE_ROOT + ['/'] + (goalId + ['/'] + (testId + ".smoke.spec.ts"))
  }

  // -------------------------------------------------------------- data model

  datatype Test = Test(id: Identifier, acceptanceId: Identifier, title: string, steps: string)

  /** The criteria, by identifier, and the tests of one goal. */
  datatype Contract = Contract(criteria: seq<Identifier>, tests: seq<Test>)

  datatype Scoped = Scoped(goalId: Identifier, tests: seq<Test>, keyById: map<Identifier, string>,
                           pathById: map<Identifier, string>)

  datatype FileChange = FileChange(path: string, content: string)

  predicate UniquePaths(files: seq<FileChange>) {
    forall i, j :: 0 <= i < j < |files| ==> files[i].path != files[j].path
  }

  /** A dictionary from paths to contents, in insertion order. */
  type Sources = files: seq<FileChange> | UniquePaths(files) witness []

  /** The route checks, which other code derives. */
  datatype Navigation = Navigation(sources: Sources, paths: map<string, string>, names: map<string, string>)

  datatype Compiled = Compiled(
    changes: seq<FileChange>,
    sha256ByPath: map<string, string>,
    testPathByAcceptanceId: map<string, string>,
    testNameByAcceptanceId: map<string, string>,
    acceptanceKeyById: map<string, string>,
    navigationTestPathById: map<string, string>,
    navigationTestNameById: map<string, string>
  )

  datatype CompileError =
    | DuplicateSourcePath
    | DuplicateNavigationPath
    | DuplicateGoal(goalId: string)
    | InvalidTestPath(goalId: string, testId: string)
    | DuplicateKey(key: string)
    | DuplicateTestPath(path: string)
    | InvalidKey(goalId: string, acceptanceId: string)

  /** Dictionaries under construction; `sources` keeps insertion order. */
  datatype Progress = Progress(
    sources: seq<FileChange>,
    paths: map<string, string>,
    names: map<string, string>,
    keys: map<string, string>
  )

  type Printer = (string, string) -> string

  function ChangePath(f: FileChange): string {
    f.path
  }

  predicate HasPath(sources: seq<FileChange>, path: string) {
    exists i :: 0 <= i < |sources| && sources[i].path == path
  }

  // ----------------------------------------------------------- specification

  /** The body of the inner loop. */
  function AddTest(p: Progress, s: Scoped, t: Test, single: bool, source: Printer): Result<Progress, CompileError> {
    var key, path := PersistenceKey(s.goalId, t.acceptanceId), TestPath(s.goalId, t.id);
    if t.id !in s.pathById || s.pathById[t.id] != path then Err(InvalidTestPath(s.goalId, t.id))
    else if key in p.paths || key in p.names || key in p.keys.Values then Err(DuplicateKey(key))
    else if HasPath(p.sources, path) then Err(DuplicateTestPath(path))
    else if t.acceptanceId !in s.keyById || s.keyById[t.acceptanceId] != key then
      Err(InvalidKey(s.goalId, t.acceptanceId))
    else Ok(Progress(p.sources + [FileChange(path, source(t.title, t.steps))], p.paths[key := path],
                     p.names[key := t.title],
                     p.keys[(if single then t.acceptanceId else key) := key]))
  }

  function AddTests(p: Progress, s: Scoped, i: nat, single: bool, source: Printer): Result<Progress, CompileError>
    requires i <= |s.tests|
    decreases |s.tests| - i
  {
    if i == |s.tests| then Ok(p)
    else
      match AddTest(p, s, s.tests[i], single, source)
      case Err(e) => Err(e)
      case Ok(q) => AddTests(q, s, i + 1, single, source)
  }

  function AddGoals(p: Progress, goals: seq<Scoped>, i: nat, seen: set<string>, single: bool, source: Printer)
    : Result<Progress, CompileError>
    requires i <= |goals|
    decreases |goals| - i
  {
    if i == |goals| then Ok(p)
    else if goals[i].goalId in seen then Err(DuplicateGoal(goals[i].goalId))
    else
      match AddTests(p, goals[i], 0, single, source)
      case Err(e) => Err(e)
      case Ok(q) => AddGoals(q, goals, i + 1, seen + {goals[i].goalId}, single, source)
  }

  predicate Overlap(a: seq<FileChange>, b: seq<FileChange>) {
    exists i :: 0 <= i < |b| && HasPath(a, b[i].path)
  }

  /** Fixed assets, then additional sources, then route checks. */
  function BaseSources(assets: Sources, additional: Sources, navigation: Navigation)
    : Result<seq<FileChange>, CompileError>
  {
    if Overlap(assets, additional) then Err(DuplicateSourcePath)
    else if Overlap(assets + additional, navigation.sources) then Err(DuplicateNavigationPath)
    else Ok(assets + additional + navigation.sources)
  }

  function Digests(sources: seq<FileChange>, sha: string -> string): map<string, string> {
    if sources == [] then map[]
    else
      var last := sources[|sources| - 1];
      Digests(sources[..|sources| - 1], sha)[last.path := sha(last.content)]
  }

  function Start(base: seq<FileChange>): Progress {
    Progress(base, map[], map[], map[])
  }

  function Finish(p: Progress, navigation: Navigation, sha: string -> string): Compiled {
    var changes := Sort(p.sources, ChangePath);
    Compiled(changes, Digests(changes, sha), p.paths, p.names, p.keys, navigation.paths, navigation.names)
  }

  /** What `_compile_sources` gives. */
  function Compile(goals: seq<Scoped>, assets: Sources, additional: Sources, navigation: Navigation, source: Printer,
                   sha: string -> string)
    : Result<Compiled, CompileError>
  {
    match BaseSources(assets, additional, navigation)
    case Err(e) => Err(e)
    case Ok(base) =>
      match AddGoals(Start(base), goals, 0, {}, |goals| == 1, source)
      case Err(e) => Err(e)
      case Ok(p) => Ok(Finish(p, navigation, sha))
  }

  function GoalId(s: Scoped): string {
    s.goalId
  }

  /** `compile_acceptance_suite`: by goal, whatever order the goals come in. */
  function CompileSuite(goals: seq<Scoped>, assets: Sources, navigation: Navigation, source: Printer,
                        sha: string -> string)
    : Result<Compiled, CompileError>
  {
    Compile(Sort(goals, GoalId), assets, [], navigation, source, sha)
  }

  // ---------------------------------------------------------------- scoping

  function KeysById(goalId: Identifier, criteria: seq<Identifier>): map<Identifier, string> {
    map id | id in criteria :: PersistenceKey(goalId, id)
  }

  function PathsById(goalId: Identifier, tests: seq<Test>): map<Identifier, string> {
    map id: Identifier | id in TestIds(tests) :: TestPath(goalId, id)
  }

  function TestIds(tests: seq<Test>): set<Identifier> {
    set i | 0 <= i < |tests| :: tests[i].id
  }

  /** `scope_acceptance_contract`. */
  function Scope(goalId: Identifier, contract: Contract): Scoped {
    Scoped(goalId, contract.tests, KeysById(goalId, contract.criteria), PathsById(goalId, contract.tests))
  }

  // --------------------------------------------------------------- the loops

  lemma HasPathInConcat(a: seq<FileChange>, b: seq<FileChange>, path: string)
    ensures HasPath(a + b, path) <==> HasPath(a, path) || HasPath(b, path)
  {
    var ab := a + b;
    if HasPath(a, path) {
      var i :| 0 <= i < |a| && a[i].path == path;
      assert ab[i].path == path;
    }
    if HasPath(b, path) {
      var i :| 0 <= i < |b| && b[i].path == path;
      assert ab[|a| + i].path == path;
    }
  }

  /** One dictionary into another, unless they share a path. */
  method Merge(sources: seq<FileChange>, more: Sources) returns (r: Option<seq<FileChange>>)
    ensures r == if Overlap(sources, more) then None else Some(sources + more)
  {
    var merged := sources;
    assert sources + more[..0] == sources;
    for i := 0 to |more|
      invariant merged == sources + more[..i]
      invariant forall k :: 0 <= k < i ==> !HasPath(sources, more[k].path)
    {
      HasPathInConcat(sources, more[..i], more[i].path);
      if HasPath(merged, more[i].path) {
        return None;
      }
      merged := merged + [more[i]];
      assert more[..i + 1] == more[..i] + [more[i]];
      ConcatAssociates(sources, more[..i], [more[i]]);
    }
    assert more[..|more|] == more;
    return Some(merged);
  }

  method CompileSources(goals: seq<Scoped>, assets: Sources, additional: Sources, navigation: Navigation,
                        source: Printer, sha: string -> string)
    returns (r: Result<Compiled, CompileError>)
    ensures r == Compile(goals, assets, additional, navigation, source, sha)
  {
    var singleGoal := |goals| == 1;
    var withAdditional := Merge(assets, additional);
    if withAdditional == None {
      return Err(DuplicateSourcePath);
    }
    var withNavigation := Merge(withAdditional.value, navigation.sources);
    if withNavigation == None {
      return Err(DuplicateNavigationPath);
    }
    var sources := withNavigation.value;
    var testPaths: map<string, string> := map[];
    var testNames: map<string, string> := map[];
    var acceptanceKeys: map<string, string> := map[];
    var seenGoalIds: set<string> := {};
    ghost var all := AddGoals(Start(sources), goals, 0, {}, singleGoal, source);
    for i := 0 to |goals|
      invariant AddGoals(Progress(sources, testPaths, testNames, acceptanceKeys), goals, i, seenGoalIds, singleGoal,
                         source) == all
    {
      var scoped := goals[i];
      if scoped.goalId in seenGoalIds {
        return Err(DuplicateGoal(scoped.goalId));
      }
      seenGoalIds := seenGoalIds + {scoped.goalId};
      ghost var ofGoal := AddTests(Progress(sources, testPaths, testNames, acceptanceKeys), scoped, 0, singleGoal,
                                   source);
      for j := 0 to |scoped.tests|
        invariant AddTests(Progress(sources, testPaths, testNames, acceptanceKeys), scoped, j, singleGoal, source) ==
                  ofGoal
      {
        var item := scoped.tests[j];
        var key, path := PersistenceKey(scoped.goalId, item.acceptanceId), TestPath(scoped.goalId, item.id);
        if item.id !in scoped.pathById || scoped.pathById[item.id] != path {
          return Err(InvalidTestPath(scoped.goalId, item.id));
        }
        if key in testPaths || key in testNames || key in acceptanceKeys.Values {
          return Err(DuplicateKey(key));
        }
        if HasPath(sources, path) {
          return Err(DuplicateTestPath(path));
        }
        if item.acceptanceId !in scoped.keyById || scoped.keyById[item.acceptanceId] != key {
          return Err(InvalidKey(scoped.goalId, item.acceptanceId));
        }
        sources := sources + [FileChange(path, source(item.title, item.steps))];
        testPaths := testPaths[key := path];
        testNames := testNames[key := item.title];
        acceptanceKeys := acceptanceKeys[(if singleGoal then item.acceptanceId else key) := key];
      }
    }
    return Ok(Finish(Progress(sources, testPaths, testNames, acceptanceKeys), navigation, sha));
  }
}
