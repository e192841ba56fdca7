/** What the tests of one goal add to a suite. */
module AcceptanceProofs {
  // Keys and paths are unique across goals, and the tests go in exactly when they are well scoped, differ from each
  // other and find their places free.

  import opened Common
  import opened Acceptance

  // ------------------------------------------------- keys and paths are unique

  lemma {:induction false} SplitIsUnique(a: string, b: string, c: char, x: string, y: string)
    requires a + [c] + b == x + [c] + y && c !in a && c !in x
    ensures a == x && b == y
    decreases |a|
  {
    var s, t := a + [c] + b, x + [c] + y;
    assert s[0] == if a == "" then c else a[0];
    assert t[0] == if x == "" then c else x[0];
    if a == "" {
      assert s[1..] == b && t[1..] == y;
    } else {
      assert s[0] == a[0] && t[0] == x[0];
      assert s[1..] == a[1..] + [c] + b && t[1..] == x[1..] + [c] + y;
      SplitIsUnique(a[1..], b, c, x[1..], y);
      assert a == [a[0]] + a[1..] && x == [x[0]] + x[1..];
    }
  }

  lemma NotInIdentifier(id: Identifier)
    ensures ':' !in id && '/' !in id
  {
  }

  /** A key names its goal and its criterion. */
  lemma KeyIsInjective(g: Identifier, a: Identifier, h: Identifier, b: Identifier)
    ensures PersistenceKey(g, a) == PersistenceKey(h, b) <==> g == h && a == b
  {
    NotInIdentifier(g);
    NotInIdentifier(h);
    if PersistenceKey(g, a) == PersistenceKey(h, b) {
      SplitIsUnique(g, a, ':', h, b);
    }
  }

  lemma SameFront(front: string, s: string, t: string)
    requires front + s == front + t
    ensures s == t
  {
    assert (front + s)[|front|..] == s && (front + t)[|front|..] == t;
  }

  lemma SameBack(s: string, t: string, back: string)
    requires s + back == t + back
    ensures s == t
  {
    assert |s| == |t|;
    assert (s + back)[..|s|] == s && (t + back)[..|t|] == t;
  }

  /** A test path names its goal and its test. */
  lemma PathIsInjective(g: Identifier, t: Identifier, h: Identifier, u: Identifier)
    ensures TestPath(g, t) == TestPath(h, u) <==> g == h && t == u
  {
    NotInIdentifier(g);
    NotInIdentifier(h);
    if TestPath(g, t) == TestPath(h, u) {
      SameFront(ACCEPTANCE_ROOT + ['/'], g + ['/'] + (t + ".smoke.spec.ts"), h + ['/'] + (u + ".smoke.spec.ts"));
      SplitIsUnique(g, t + ".smoke.spec.ts", '/', h, u + ".smoke.spec.ts");
      SameBack(t, u, ".smoke.spec.ts");
    }
  }

  // -------------------------------------------------- what a goal contributes

  /** The files of a goal's tests from the `i`-th on. */
  function TestFiles(s: Scoped, i: nat, source: Printer): seq<FileChange>
    requires i <= |s.tests|
    decreases |s.tests| - i
  {
    if i == |s.tests| then []
    else
      [FileChange(TestPath(s.goalId, s.tests[i].id), source(s.tests[i].title, s.tests[i].steps))]
      + TestFiles(s, i + 1, source)
  }

  function TestPaths(s: Scoped, i: nat): map<string, string>
    requires i <= |s.tests|
    decreases |s.tests| - i
  {
    if i == |s.tests| then map[]
    else
      map[PersistenceKey(s.goalId, s.tests[i].acceptanceId) := TestPath(s.goalId, s.tests[i].id)] + TestPaths(s, i + 1)
  }

  predicate GoodTest(s: Scoped, t: Test) {
    && t.id in s.pathById && s.pathById[t.id] == TestPath(s.goalId, t.id)
    && t.acceptanceId in s.keyById && s.keyById[t.acceptanceId] == PersistenceKey(s.goalId, t.acceptanceId)
  }

  /** The test neither meets a key nor a path that is already there. */
  predicate Free(p: Progress, s: Scoped, t: Test) {
    PersistenceKey(s.goalId, t.acceptanceId) !in p.paths && !HasPath(p.sources, TestPath(s.goalId, t.id))
  }

  /** The tests from the `i`-th on are well scoped, differ from each other, and find their places free. */
  predicate GoalFits(p: Progress, s: Scoped, i: nat)
    requires i <= |s.tests|
  {
    && (forall j :: i <= j < |s.tests| ==> GoodTest(s, s.tests[j]) && Free(p, s, s.tests[j]))
    && (forall j, k :: i <= j < k < |s.tests| ==>
        s.tests[j].id != s.tests[k].id && s.tests[j].acceptanceId != s.tests[k].acceptanceId)
  }

  function TestNames(s: Scoped, i: nat): map<string, string>
    requires i <= |s.tests|
    decreases |s.tests| - i
  {
    if i == |s.tests| then map[]
    else map[PersistenceKey(s.goalId, s.tests[i].acceptanceId) := s.tests[i].title] + TestNames(s, i + 1)
  }

  /** How a suite of one goal, or of several, names a criterion. */
  function Label(s: Scoped, t: Test, single: bool): string {
    if single then t.acceptanceId else PersistenceKey(s.goalId, t.acceptanceId)
  }

  function KeyTable(s: Scoped, i: nat, single: bool): map<string, string>
    requires i <= |s.tests|
    decreases |s.tests| - i
  {
    if i == |s.tests| then map[]
    else
      map[Label(s, s.tests[i], single) := PersistenceKey(s.goalId, s.tests[i].acceptanceId)]
      + KeyTable(s, i + 1, single)
  }

  /** The three dictionaries speak of the same keys; in a suite of one goal the third is by criterion. */
  predicate Balanced(p: Progress, single: bool, goalId: Identifier) {
    && p.paths.Keys == p.names.Keys == p.keys.Values
    && forall k :: k in p.keys ==> p.keys[k] == if single then goalId + [':'] + k else k
  }

  lemma HasPathOfAppended(sources: seq<FileChange>, f: FileChange, path: string)
    ensures HasPath(sources + [f], path) <==> HasPath(sources, path) || f.path == path
  {
    HasPathInConcat(sources, [f], path);
    assert [f][0] == f;
  }

  lemma ValuesOfExtended(m: map<string, string>, k: string, v: string)
    requires k !in m
    ensures m[k := v].Values == m.Values + {v}
  {
    var n := m[k := v];
    forall x ensures x in n.Values <==> x in m.Values + {v} {
      if x in m.Values {
        var j :| j in m && m[j] == x;
        assert n[j] == x;
      }
      if x == v {
        assert n[k] == v;
      }
    }
  }

  lemma AddTestMeans(p: Progress, s: Scoped, t: Test, single: bool, source: Printer)
    requires Balanced(p, single, s.goalId)
    ensures var r := AddTest(p, s, t, single, source);
            && (r.Ok? <==> GoodTest(s, t) && Free(p, s, t))
            && (r.Ok? ==> Balanced(r.value, single, s.goalId))
  {
    var key, name := PersistenceKey(s.goalId, t.acceptanceId), Label(s, t, single);
    if key !in p.paths {
      assert key !in p.keys.Values;
      assert name !in p.keys;
      ValuesOfExtended(p.keys, name, key);
    }
  }

  /** Once a test is in, the tests behind it find their places free if they did before and differ from it. */
  lemma StillFree(p: Progress, s: Scoped, t: Test, u: Test, single: bool, source: Printer)
    requires AddTest(p, s, t, single, source).Ok?
    ensures Free(AddTest(p, s, t, single, source).value, s, u) <==>
            Free(p, s, u) && t.id != u.id && t.acceptanceId != u.acceptanceId
  {
    KeyIsInjective(s.goalId, t.acceptanceId, s.goalId, u.acceptanceId);
    PathIsInjective(s.goalId, t.id, s.goalId, u.id);
    HasPathOfAppended(p.sources, FileChange(TestPath(s.goalId, t.id), source(t.title, t.steps)),
                      TestPath(s.goalId, u.id));
  }

  lemma GoalFitsStep(p: Progress, s: Scoped, i: nat, single: bool, source: Printer)
    requires i < |s.tests| && AddTest(p, s, s.tests[i], single, source).Ok?
    requires GoodTest(s, s.tests[i]) && Free(p, s, s.tests[i])
    ensures GoalFits(AddTest(p, s, s.tests[i], single, source).value, s, i + 1) <==> GoalFits(p, s, i)
  {
    var q := AddTest(p, s, s.tests[i], single, source).value;
    forall j | i < j < |s.tests|
      ensures Free(q, s, s.tests[j]) <==>
              Free(p, s, s.tests[j]) && s.tests[i].id != s.tests[j].id
                  && s.tests[i].acceptanceId != s.tests[j].acceptanceId {
      StillFree(p, s, s.tests[i], s.tests[j], single, source);
    }
  }

  /** What the tests of a goal add to the dictionaries. */
  function Extended(p: Progress, s: Scoped, i: nat, single: bool, source: Printer): Progress
    requires i <= |s.tests|
  {
    Progress(p.sources + TestFiles(s, i, source), p.paths + TestPaths(s, i), p.names + TestNames(s, i),
             p.keys + KeyTable(s, i, single))
  }

  lemma ExtendedStep(p: Progress, s: Scoped, i: nat, single: bool, source: Printer)
    requires i < |s.tests| && AddTest(p, s, s.tests[i], single, source).Ok?
    ensures Extended(AddTest(p, s, s.tests[i], single, source).value, s, i + 1, single, source) ==
            Extended(p, s, i, single, source)
  {
    var t := s.tests[i];
    var key, path := PersistenceKey(s.goalId, t.acceptanceId), TestPath(s.goalId, t.id);
    ConcatAssociates(p.sources, [FileChange(path, source(t.title, t.steps))], TestFiles(s, i + 1, source));
    UpdateThenMerge(p.paths, key, path, TestPaths(s, i + 1));
    UpdateThenMerge(p.names, key, t.title, TestNames(s, i + 1));
    UpdateThenMerge(p.keys, Label(s, t, single), key, KeyTable(s, i + 1, single));
  }

  lemma UpdateThenMerge(m: map<string, string>, k: string, v: string, n: map<string, string>)
    ensures m[k := v] + n == m + (map[k := v] + n)
  {
  }

  /** The tests of a goal go in exactly when they fit; then they leave what `Extended` says. */
  lemma {:induction false} AddTestsMeans(p: Progress, s: Scoped, i: nat, single: bool, source: Printer)
    requires i <= |s.tests| && Balanced(p, single, s.goalId)
    ensures AddTests(p, s, i, single, source).Ok? <==> GoalFits(p, s, i)
    ensures GoalFits(p, s, i) ==>
              AddTests(p, s, i, single, source).value == Extended(p, s, i, single, source)
              && Balanced(Extended(p, s, i, single, source), single, s.goalId)
    decreases |s.tests| - i
  {
    if i == |s.tests| {
      assert Extended(p, s, i, single, source) == p;
    } else {
      AddTestMeans(p, s, s.tests[i], single, source);
      if AddTest(p, s, s.tests[i], single, source).Ok? {
        GoalFitsStep(p, s, i, single, source);
        ExtendedStep(p, s, i, single, source);
        AddTestsMeans(AddTest(p, s, s.tests[i], single, source).value, s, i + 1, single, source);
      }
    }
  }
}
