/** The bounded, fail-closed parser of Playwright's JSON reporter (playwright_reporter.py). */
module PlaywrightReport {
  import opened Common

  datatype Json =
    | Null
    | Bool(b: bool)
    | Num(n: int)
    | Str(s: string)
    | Arr(items: seq<Json>)
    | Obj(fields: map<string, Json>)

  datatype TestStatus = Passed | Failed | DidNotRun

  /** The title of its spec, the test's own status, and its last result's status. */
  datatype Test = Test(title: string, overall: string, lastResult: string)

  datatype Report = Report(testCount: nat, title: Option<string>, status: Option<TestStatus>, topLevelErrors: nat,
                           loadErrors: nat)

  /** `value.get(key)`, where an absent key and a null are the same. */
  function Get(j: Json, key: string): (r: Json)
    requires j.Obj?
    ensures r == Null || (key in j.fields && r == j.fields[key])
  {
    if key in j.fields then j.fields[key] else Null
  }

  function Truthy(j: Json): bool {
    match j
    case Null => false
    case Bool(b) => b
    case Num(n) => n != 0
    case Str(s) => s != ""
    case Arr(items) => items != []
    case Obj(fields) => fields != map[]
  }

  predicate AllObjects(items: seq<Json>) {
    forall i :: 0 <= i < |items| ==> items[i].Obj?
  }

  /** A list-valued field's elements; a missing or ill-typed field has none. */
  function Elements(j: Json): seq<Json> {
    match j case Arr(items) => items case _ => []
  }

  predicate NullOrObjects(j: Json) {
    j.Null? || (j.Arr? && AllObjects(j.items))
  }

  // ---------------------------------------------------- recursive reference

  predicate GoodResult(r: Json) {
    r.Obj? && Get(r, "status").Str?
  }

  predicate GoodTest(t: Json) {
    && t.Obj? && Get(t, "status").Str?
    && Get(t, "results").Arr? && Get(t, "results").items != []
    && forall i :: 0 <= i < |Get(t, "results").items| ==> GoodResult(Get(t, "results").items[i])
  }

  predicate GoodSpec(s: Json) {
    && s.Obj?
    && (Truthy(Get(s, "errors")) ==> Get(s, "errors").Arr? && AllObjects(Get(s, "errors").items))
    && Get(s, "title").Str?
    && NullOrObjects(Get(s, "tests"))
    && forall i :: 0 <= i < |Elements(Get(s, "tests"))| ==> GoodTest(Elements(Get(s, "tests"))[i])
  }

  function Nested(suite: Json): (r: seq<Json>)
    ensures forall i :: 0 <= i < |r| ==> r[i] < suite
  {
    if !suite.Obj? then [] else Elements(Get(suite, "suites"))
  }

  function OwnSpecs(suite: Json): seq<Json> {
    if !suite.Obj? then [] else Elements(Get(suite, "specs"))
  }

  /** A suite is an object whose nested suites and specs are absent or lists of well-formed objects. */
  predicate GoodSuite(s: Json) {
    && s.Obj? && NullOrObjects(Get(s, "suites")) && NullOrObjects(Get(s, "specs"))
    && (forall i :: 0 <= i < |OwnSpecs(s)| ==> GoodSpec(OwnSpecs(s)[i]))
    && forall i :: 0 <= i < |Nested(s)| ==> GoodSuite(Nested(s)[i])
  }

  predicate GoodPayload(p: Json) {
    && p.Obj? && Get(p, "errors").Arr? && Get(p, "suites").Arr?
    && forall i :: 0 <= i < |Elements(Get(p, "suites"))| ==> GoodSuite(Elements(Get(p, "suites"))[i])
  }

  function TestOf(title: string, t: Json): Test
    requires GoodTest(t)
  {
    var results := Get(t, "results").items;
    Test(title, Get(t, "status").s, Get(results[|results| - 1], "status").s)
  }

  function SpecTests(s: Json): (tests: seq<Test>)
    requires GoodSpec(s)
    ensures |tests| == |Elements(Get(s, "tests"))|
  {
    var found := Elements(Get(s, "tests"));
    seq(|found|, i requires 0 <= i < |found| => TestOf(Get(s, "title").s, found[i]))
  }

  function SpecErrors(s: Json): nat
    requires GoodSpec(s)
  {
    |Elements(Get(s, "errors"))|
  }

  /** Every spec below a suite, in document order. */
  function SpecsOf(suite: Json): seq<Json>
    decreases suite, 1
  {
    OwnSpecs(suite) + NestedSpecs(suite, |Nested(suite)|)
  }

  function NestedSpecs(suite: Json, n: nat): seq<Json>
    requires n <= |Nested(suite)|
    decreases suite, 0, n
  {
    if n == 0 then [] else NestedSpecs(suite, n - 1) + SpecsOf(Nested(suite)[n - 1])
  }

  function SpecsOfAll(suites: seq<Json>): seq<Json> {
    if suites == [] then [] else SpecsOfAll(suites[..|suites| - 1]) + SpecsOf(suites[|suites| - 1])
  }

  predicate AllGood(specs: seq<Json>) {
    forall i :: 0 <= i < |specs| ==> GoodSpec(specs[i])
  }

  function TestsOfSpecs(specs: seq<Json>): seq<Test>
    requires AllGood(specs)
  {
    if specs == [] then [] else TestsOfSpecs(specs[..|specs| - 1]) + SpecTests(specs[|specs| - 1])
  }

  function ErrorsOfSpecs(specs: seq<Json>): nat
    requires AllGood(specs)
  {
    if specs == [] then 0 else ErrorsOfSpecs(specs[..|specs| - 1]) + SpecErrors(specs[|specs| - 1])
  }

  function Mapped(t: Test): TestStatus {
    if t.overall == "expected" && t.lastResult == "passed" then Passed
    else if t.overall == "unexpected" && t.lastResult in ["failed", "timedOut"] then Failed
    else DidNotRun
  }

  // ------------------------------------------------------- the stack's measure

  /** Suites left to visit below (and including) a node. */
  function Size(suite: Json): (n: nat)
    ensures n > 0
    decreases suite, 1
  {
    1 + NestedSize(suite, |Nested(suite)|)
  }

  function NestedSize(suite: Json, n: nat): nat
    requires n <= |Nested(suite)|
    decreases suite, 0, n
  {
    if n == 0 then 0 else NestedSize(suite, n - 1) + Size(Nested(suite)[n - 1])
  }

  function SizeOfAll(suites: seq<Json>): nat {
    if suites == [] then 0 else SizeOfAll(suites[..|suites| - 1]) + Size(suites[|suites| - 1])
  }

  lemma {:induction false} SpecsOfAppend(a: seq<Json>, b: seq<Json>)
    ensures SpecsOfAll(a + b) == SpecsOfAll(a) + SpecsOfAll(b)
  {
    if b == [] {
      assert a + b == a;
    } else {
      SpecsOfAppend(a, b[..|b| - 1]);
      LastOfConcat(a, b);
      ConcatAssociates(SpecsOfAll(a), SpecsOfAll(b[..|b| - 1]), SpecsOf(b[|b| - 1]));
    }
  }

  lemma {:induction false} SizeOfAppend(a: seq<Json>, b: seq<Json>)
    ensures SizeOfAll(a + b) == SizeOfAll(a) + SizeOfAll(b)
  {
    if b == [] {
      assert a + b == a;
    } else {
      SizeOfAppend(a, b[..|b| - 1]);
      LastOfConcat(a, b);
    }
  }

  lemma {:induction false} NestedIsAll(suite: Json, n: nat)
    requires n <= |Nested(suite)|
    ensures NestedSpecs(suite, n) == SpecsOfAll(Nested(suite)[..n])
            && NestedSize(suite, n) == SizeOfAll(Nested(suite)[..n])
  {
    if n > 0 {
      NestedIsAll(suite, n - 1);
      assert Nested(suite)[..n][..n - 1] == Nested(suite)[..n - 1];
    }
  }

  /** A suite is its own specs and those of its nested suites; its size is one more than theirs. */
  lemma SuiteUnfolds(suite: Json)
    ensures SpecsOf(suite) == OwnSpecs(suite) + SpecsOfAll(Nested(suite))
    ensures Size(suite) == 1 + SizeOfAll(Nested(suite))
  {
    NestedIsAll(suite, |Nested(suite)|);
    assert Nested(suite)[..|Nested(suite)|] == Nested(suite);
  }

  // ---------------------------------------------------------- order irrelevant

  /** The shape the stack loop itself checks; specs are judged afterwards. */
  predicate GoodShape(s: Json) {
    && s.Obj? && NullOrObjects(Get(s, "suites")) && NullOrObjects(Get(s, "specs"))
    && forall i :: 0 <= i < |Nested(s)| ==> GoodShape(Nested(s)[i])
  }

  predicate GoodShapes(suites: seq<Json>) {
    forall i :: 0 <= i < |suites| ==> GoodShape(suites[i])
  }

  lemma {:induction false} ShapeAndSpecs(suite: Json)
    ensures GoodSuite(suite) <==> GoodShape(suite) && AllGood(SpecsOf(suite))
    decreases suite, 1
  {
    SuiteUnfolds(suite);
    ShapesAndSpecs(suite, Nested(suite));
    var own, deeper := OwnSpecs(suite), SpecsOfAll(Nested(suite));
    AllGoodAppend(own, deeper);
  }

  lemma AllGoodAppend(a: seq<Json>, b: seq<Json>)
    ensures AllGood(a + b) <==> AllGood(a) && AllGood(b)
  {
    if AllGood(a + b) {
      forall i | 0 <= i < |a| ensures GoodSpec(a[i]) {
        assert (a + b)[i] == a[i];
      }
      forall i | 0 <= i < |b| ensures GoodSpec(b[i]) {
        assert (a + b)[|a| + i] == b[i];
      }
    }
  }

  predicate GoodSuites(suites: seq<Json>) {
    forall i :: 0 <= i < |suites| ==> GoodSuite(suites[i])
  }

  lemma {:induction false} ShapesAndSpecs(bound: Json, suites: seq<Json>)
    requires forall i :: 0 <= i < |suites| ==> suites[i] < bound
    ensures GoodSuites(suites) <==> GoodShapes(suites) && AllGood(SpecsOfAll(suites))
    decreases bound, 0, |suites|
  {
    if suites != [] {
      var earlier, last := suites[..|suites| - 1], suites[|suites| - 1];
      ShapesAndSpecs(bound, earlier);
      ShapeAndSpecs(last);
      AllGoodAppend(SpecsOfAll(earlier), SpecsOf(last));
      GoodUpToLast(suites);
    }
  }

  lemma GoodUpToLast(suites: seq<Json>)
    requires suites != []
    ensures GoodSuites(suites) <==> GoodSuites(suites[..|suites| - 1]) && GoodSuite(suites[|suites| - 1])
    ensures GoodShapes(suites) <==> GoodShapes(suites[..|suites| - 1]) && GoodShape(suites[|suites| - 1])
  {
    var earlier := suites[..|suites| - 1];
    if GoodSuites(suites) {
      assert forall i :: 0 <= i < |earlier| ==> earlier[i] == suites[i];
    }
    if GoodSuites(earlier) {
      assert forall i :: 0 <= i < |earlier| ==> suites[i] == earlier[i];
    }
  }

  lemma {:induction false} TestsOfAppend(a: seq<Json>, b: seq<Json>)
    requires AllGood(a) && AllGood(b)
    ensures AllGood(a + b)
    ensures TestsOfSpecs(a + b) == TestsOfSpecs(a) + TestsOfSpecs(b)
    ensures ErrorsOfSpecs(a + b) == ErrorsOfSpecs(a) + ErrorsOfSpecs(b)
  {
    AllGoodAppend(a, b);
    if b == [] {
      assert a + b == a;
    } else {
      var earlier, last := b[..|b| - 1], b[|b| - 1];
      TestsOfAppend(a, earlier);
      LastOfConcat(a, b);
      ConcatAssociates(TestsOfSpecs(a), TestsOfSpecs(earlier), SpecTests(last));
    }
  }

  /** Visiting the same specs in another order finds the same tests and counts the same errors. */
  lemma {:induction false} OrderIsIrrelevant(a: seq<Json>, b: seq<Json>)
    requires multiset(a) == multiset(b) && AllGood(a)
    ensures AllGood(b)
    ensures multiset(TestsOfSpecs(a)) == multiset(TestsOfSpecs(b)) && ErrorsOfSpecs(a) == ErrorsOfSpecs(b)
  {
    SameElementsGood(a, b);
    if a == [] {
      assert |multiset(b)| == 0;
    } else {
      var x, rest := a[|a| - 1], a[..|a| - 1];
      assert a == rest + [x];
      var left, right := TakeOut(rest, x, b);
      AllGoodAppend(left, [x] + right);
      AllGoodAppend([x], right);
      OrderIsIrrelevant(rest, left + right);
      MovedSpec(left, x, right);
      TestsOfAppend(rest, [x]);
    }
  }

  lemma TakeOut<T>(rest: seq<T>, x: T, b: seq<T>) returns (left: seq<T>, right: seq<T>)
    requires multiset(rest + [x]) == multiset(b)
    ensures b == left + ([x] + right) && multiset(rest) == multiset(left + right)
  {
    assert multiset(rest + [x]) == multiset(rest) + multiset{x};
    assert x in multiset(b);
    var k :| 0 <= k < |b| && b[k] == x;
    left, right := b[..k], b[k + 1..];
    assert b == left + ([x] + right);
    MultisetOfParts(left, x, right);
    CancelOne(multiset(rest), multiset(left + right), x);
  }

  lemma MultisetOfParts<T>(left: seq<T>, x: T, right: seq<T>)
    ensures multiset(left + ([x] + right)) == multiset(left + right) + multiset{x}
  {
  }

  lemma CancelOne<T>(a: multiset<T>, b: multiset<T>, x: T)
    requires a + multiset{x} == b + multiset{x}
    ensures a == b
  {
    assert (a + multiset{x}) - multiset{x} == a;
    assert (b + multiset{x}) - multiset{x} == b;
  }

  lemma SameElementsGood(a: seq<Json>, b: seq<Json>)
    requires multiset(a) == multiset(b) && AllGood(a)
    ensures AllGood(b)
  {
    forall i | 0 <= i < |b| ensures GoodSpec(b[i]) {
      assert b[i] in multiset(a);
    }
  }

  lemma MovedSpec(left: seq<Json>, x: Json, right: seq<Json>)
    requires AllGood(left) && AllGood(right) && AllGood([x])
    ensures AllGood(left + ([x] + right)) && AllGood(left + right)
    ensures multiset(TestsOfSpecs(left + ([x] + right))) ==
            multiset(TestsOfSpecs(left + right)) + multiset(TestsOfSpecs([x]))
    ensures ErrorsOfSpecs(left + ([x] + right)) == ErrorsOfSpecs(left + right) + ErrorsOfSpecs([x])
  {
    TestsOfAppend(left, right);
    TestsOfAppend([x], right);
    TestsOfAppend(left, [x] + right);
  }

  // --------------------------------------------------------------- the parser

  method ResultStatus(test: Json) returns (valid: bool, status: string)
    requires test.Obj? && Get(test, "status").Str?
    ensures valid <==> GoodTest(test)
    ensures valid ==> status == TestOf("", test).lastResult
  {
    valid, status := false, "";
    var results := Get(test, "results");
    if !results.Arr? || results.items == [] {
      return;
    }
    var statuses: seq<string> := [];
    for i := 0 to |results.items|
      invariant |statuses| == i
      invariant forall j :: 0 <= j < i ==>
                GoodResult(results.items[j]) && statuses[j] == Get(results.items[j], "status").s
    {
      var result := results.items[i];
      if !result.Obj? || !Get(result, "status").Str? {
        return;
      }
      statuses := statuses + [Get(result, "status").s];
    }
    valid, status := true, statuses[|statuses| - 1];
  }

  /** Replacing the popped suite by its children moves its own specs out of what is left to visit. */
  lemma VisitOne(others: seq<Json>, suite: Json)
    ensures multiset(SpecsOfAll(others + [suite])) ==
            multiset(OwnSpecs(suite)) + multiset(SpecsOfAll(others + Nested(suite)))
    ensures SizeOfAll(others + Nested(suite)) < SizeOfAll(others + [suite])
  {
    SuiteUnfolds(suite);
    SpecsOfAppend(others, [suite]);
    SpecsOfAppend(others, Nested(suite));
    SizeOfAppend(others, [suite]);
    SizeOfAppend(others, Nested(suite));
    assert SpecsOfAll([suite]) == SpecsOfAll([]) + SpecsOf(suite) && SizeOfAll([suite]) == SizeOfAll([]) + Size(suite);
  }

  /** What is collected plus what is still below the stack. */
  ghost function InAll(specs: seq<Json>, stack: seq<Json>): multiset<Json> {
    multiset(specs) + multiset(SpecsOfAll(stack))
  }

  lemma AllAtTheEnds(specs: seq<Json>, stack: seq<Json>)
    ensures InAll(specs, []) == multiset(specs) && InAll([], stack) == multiset(SpecsOfAll(stack))
  {
    assert SpecsOfAll([]) == [];
  }

  lemma VisitKeepsAll(specs: seq<Json>, others: seq<Json>, suite: Json)
    ensures InAll(specs + OwnSpecs(suite), others + Nested(suite)) == InAll(specs, others + [suite])
  {
    VisitOne(others, suite);
    assert multiset(specs + OwnSpecs(suite)) == multiset(specs) + multiset(OwnSpecs(suite));
  }

  /** A suite the loop can visit. */
  predicate Visitable(suite: Json) {
    suite.Obj? && NullOrObjects(Get(suite, "suites")) && NullOrObjects(Get(suite, "specs"))
  }

  /** What is collected and what is on the stack stand for all the suites. */
  ghost predicate Walking(suites: seq<Json>, stack: seq<Json>, specs: seq<Json>) {
    (GoodShapes(suites) <==> GoodShapes(stack)) && InAll(specs, stack) == InAll([], suites)
  }

  lemma VisitWalksOn(suites: seq<Json>, others: seq<Json>, suite: Json, specs: seq<Json>)
    requires Walking(suites, others + [suite], specs) && Visitable(suite)
    ensures Walking(suites, others + Elements(Get(suite, "suites")), specs + Elements(Get(suite, "specs")))
    ensures SizeOfAll(others + Elements(Get(suite, "suites"))) < SizeOfAll(others + [suite])
  {
    VisitOne(others, suite);
    VisitKeepsAll(specs, others, suite);
    PushKeepsShapes(others, suite);
  }

  lemma NotVisitable(suites: seq<Json>, others: seq<Json>, suite: Json, specs: seq<Json>)
    requires Walking(suites, others + [suite], specs) && !Visitable(suite)
    ensures !GoodShapes(suites)
  {
    assert (others + [suite])[|others|] == suite;
    GoodUpToLast(others + [suite]);
  }

  lemma WalkStarts(suites: seq<Json>)
    ensures Walking(suites, suites, [])
  {
  }

  lemma WalkEnds(suites: seq<Json>, specs: seq<Json>)
    requires Walking(suites, [], specs)
    ensures GoodShapes(suites) && multiset(specs) == multiset(SpecsOfAll(suites))
  {
    AllAtTheEnds(specs, suites);
  }

  /** Walks the suites with a work stack, collecting specs; nothing when some suite is malformed. */
  method CollectSpecs(suites: seq<Json>) returns (r: Option<seq<Json>>)
    ensures r.Some? <==> GoodShapes(suites)
    ensures r.Some? ==> multiset(r.value) == multiset(SpecsOfAll(suites))
  {
    var stack := suites;
    var specs: seq<Json> := [];
    WalkStarts(suites);
    while stack != []
      invariant Walking(suites, stack, specs)
      decreases SizeOfAll(stack)
    {
      var suite, others := stack[|stack| - 1], stack[..|stack| - 1];
      assert stack == others + [suite];
      if !Visitable(suite) {
        NotVisitable(suites, others, suite, specs);
        return None;
      }
      VisitWalksOn(suites, others, suite, specs);
      stack := others + Elements(Get(suite, "suites"));
      specs := specs + Elements(Get(suite, "specs"));
    }
    WalkEnds(suites, specs);
    r := Some(specs);
  }

  lemma PushKeepsShapes(others: seq<Json>, suite: Json)
    requires suite.Obj? && NullOrObjects(Get(suite, "suites")) && NullOrObjects(Get(suite, "specs"))
    ensures GoodShapes(others + [suite]) <==> GoodShapes(others + Nested(suite))
  {
    var nested := Nested(suite);
    if GoodShapes(others + [suite]) {
      assert (others + [suite])[|others|] == suite;
      assert forall i :: 0 <= i < |others| ==> (others + [suite])[i] == others[i];
    }
    if GoodShapes(others + nested) {
      forall i | 0 <= i < |nested| ensures GoodShape(nested[i]) {
        assert (others + nested)[|others| + i] == nested[i];
      }
      assert forall i :: 0 <= i < |others| ==> (others + nested)[i] == others[i];
    }
  }

  /** Reads the tests of one spec; nothing when the spec is malformed. */
  method ReadSpec(spec: Json) returns (r: Option<(seq<Test>, nat)>)
    requires spec.Obj?
    ensures r.Some? <==> GoodSpec(spec)
    ensures r.Some? ==> r.value == (SpecTests(spec), SpecErrors(spec))
  {
    var specErrors := Get(spec, "errors");
    var loadErrors: nat := 0;
    if Truthy(specErrors) {
      if !specErrors.Arr? || !AllObjects(specErrors.items) {
        return None;
      }
      loadErrors := |specErrors.items|;
    }
    var title := Get(spec, "title");
    if !title.Str? {
      return None;
    }
    var tests: seq<Test> := [];
    var specTests := Get(spec, "tests");
    if !NullOrObjects(specTests) {
      return None;
    }
    var found := Elements(specTests);
    for i := 0 to |found|
      invariant |tests| == i
      invariant forall j :: 0 <= j < i ==> GoodTest(found[j]) && tests[j] == TestOf(title.s, found[j])
    {
      var overall := Get(found[i], "status");
      if !overall.Str? {
        return None;
      }
      var valid, lastResult := ResultStatus(found[i]);
      if !valid {
        return None;
      }
      tests := tests + [Test(title.s, overall.s, lastResult)];
    }
    assert loadErrors == SpecErrors(spec);
    assert tests == SpecTests(spec);
    r := Some((tests, loadErrors));
  }

  lemma OneMoreSpec(specs: seq<Json>, i: nat)
    requires i < |specs| && AllGood(specs[..i]) && GoodSpec(specs[i])
    ensures AllGood(specs[..i + 1])
    ensures TestsOfSpecs(specs[..i + 1]) == TestsOfSpecs(specs[..i]) + SpecTests(specs[i])
    ensures ErrorsOfSpecs(specs[..i + 1]) == ErrorsOfSpecs(specs[..i]) + SpecErrors(specs[i])
  {
    assert specs[..i + 1][..i] == specs[..i];
    assert specs[..i + 1] == specs[..i] + [specs[i]];
    AllGoodAppend(specs[..i], [specs[i]]);
  }

  ghost predicate ReadUpTo(specs: seq<Json>, i: nat, tests: seq<Test>, loadErrors: nat) {
    i <= |specs| && AllGood(specs[..i]) && tests == TestsOfSpecs(specs[..i]) && loadErrors == ErrorsOfSpecs(specs[..i])
  }

  lemma ReadsOne(specs: seq<Json>, i: nat, tests: seq<Test>, loadErrors: nat)
    requires ReadUpTo(specs, i, tests, loadErrors) && i < |specs| && GoodSpec(specs[i])
    ensures ReadUpTo(specs, i + 1, tests + SpecTests(specs[i]), loadErrors + SpecErrors(specs[i]))
  {
    OneMoreSpec(specs, i);
  }

  lemma ReadsAll(specs: seq<Json>, tests: seq<Test>, loadErrors: nat)
    requires ReadUpTo(specs, |specs|, tests, loadErrors)
    ensures AllGood(specs) && tests == TestsOfSpecs(specs) && loadErrors == ErrorsOfSpecs(specs)
  {
    assert specs[..|specs|] == specs;
  }

  method ReadSpecs(specs: seq<Json>) returns (r: Option<(seq<Test>, nat)>)
    requires AllObjects(specs)
    ensures r.Some? <==> AllGood(specs)
    ensures r.Some? ==> r.value == (TestsOfSpecs(specs), ErrorsOfSpecs(specs))
  {
    var tests: seq<Test> := [];
    var loadErrors: nat := 0;
    for i := 0 to |specs|
      invariant ReadUpTo(specs, i, tests, loadErrors)
    {
      var one := ReadSpec(specs[i]);
      if one.None? {
        return None;
      }
      ReadsOne(specs, i, tests, loadErrors);
      tests, loadErrors := tests + one.value.0, loadErrors + one.value.1;
    }
    ReadsAll(specs, tests, loadErrors);
    r := Some((tests, loadErrors));
  }

  /** The tests of a whole payload in document order, and its load errors. */
  function PayloadSpecs(p: Json): (specs: seq<Json>)
    requires GoodPayload(p)
    ensures AllGood(specs)
  {
    PayloadIsShapes(p);
    SpecsOfAll(Get(p, "suites").items)
  }

  lemma PayloadIsShapes(p: Json)
    requires p.Obj? && Get(p, "errors").Arr? && Get(p, "suites").Arr?
    ensures GoodPayload(p) <==> GoodShapes(Get(p, "suites").items) && AllGood(SpecsOfAll(Get(p, "suites").items))
  {
    var suites := Get(p, "suites").items;
    assert Elements(Get(p, "suites")) == suites;
    ShapesAndSpecs(p, suites);
  }

  /**
   A pass is exactly one test that was expected to pass and last did, a failure exactly one that was not and last failed
   or ran out of time. Any other single test did not run, and there is no status without a single test.
   */
  ghost predicate StatusTells(status: Option<TestStatus>, tests: seq<Test>) {
    && (status == Some(Passed) <==> exists title :: tests == [Test(title, "expected", "passed")])
    && (status == Some(Failed) <==>
          exists title, last :: last in {"failed", "timedOut"} && tests == [Test(title, "unexpected", last)])
    && (status == Some(DidNotRun) <==>
          exists title, overall, last ::
            && tests == [Test(title, overall, last)]
            && !(overall == "expected" && last == "passed")
            && !(overall == "unexpected" && last in {"failed", "timedOut"}))
    && (status == None <==> |tests| != 1)
  }

  lemma OneTestTells(tests: seq<Test>)
    ensures StatusTells(if |tests| == 1 then Some(Mapped(tests[0])) else None, tests)
  {
    if |tests| == 1 {
      var t := tests[0];
      assert tests == [Test(t.title, t.overall, t.lastResult)];
    }
  }

  /** What `json.loads` makes of a text; one nested beyond the recursion limit raises. */
  datatype Loaded = NotJson | TooDeep | Parsed(payload: Json)

  datatype ParseError = RecursionError

  /**
   Fails closed exactly on an oversized, unparsable or somewhere malformed report, and raises on one too deep to parse.
   Otherwise the counts are those of the recursive reading, and the status is what the one test of the whole tree tells.
   */
  method ParsePlaywrightJson(sizeInBytes: nat, maxBytes: nat, loaded: Loaded)
    returns (r: Result<Option<Report>, ParseError>)
    ensures r.Err? <==> sizeInBytes <= maxBytes && loaded.TooDeep?
    ensures r.Ok? ==> (r.value.Some? <==> sizeInBytes <= maxBytes && loaded.Parsed? && GoodPayload(loaded.payload))
    ensures r.Ok? && r.value.Some? ==>
              var report, tests := r.value.value, TestsOfSpecs(PayloadSpecs(loaded.payload));
              && report.testCount == |tests|
              && report.loadErrors == ErrorsOfSpecs(PayloadSpecs(loaded.payload))
              && report.topLevelErrors == |Get(loaded.payload, "errors").items|
              && report.title == (if |tests| == 1 then Some(tests[0].title) else None)
              && StatusTells(report.status, tests)
  {
    if sizeInBytes > maxBytes {
      return Ok(None);
    }
    var p;
    match loaded {
      case NotJson => return Ok(None);
      case TooDeep => return Err(RecursionError);
      case Parsed(payload) => p := payload;
    }
    var report := ReadPayload(p);
    if report.Some? {
      OneTestTells(TestsOfSpecs(PayloadSpecs(p)));
    }
    r := Ok(report);
  }

  /** The report of a parsed payload, or nothing when it is malformed. */
  method ReadPayload(p: Json) returns (r: Option<Report>)
    ensures r.Some? <==> GoodPayload(p)
    ensures r.Some? ==>
              var tests := TestsOfSpecs(PayloadSpecs(p));
              && r.value.testCount == |tests| && r.value.loadErrors == ErrorsOfSpecs(PayloadSpecs(p))
              && r.value.topLevelErrors == |Get(p, "errors").items|
              && r.value.title == (if |tests| == 1 then Some(tests[0].title) else None)
              && r.value.status == (if |tests| == 1 then Some(Mapped(tests[0])) else None)
  {
    if !p.Obj? || !Get(p, "errors").Arr? || !Get(p, "suites").Arr? {
      return None;
    }
    PayloadIsShapes(p);
    var suites := Get(p, "suites").items;
    var specs := CollectSpecs(suites);
    if specs.None? {
      return None;
    }
    SpecsAreObjects(suites);
    forall i | 0 <= i < |specs.value| ensures specs.value[i].Obj? {
      assert specs.value[i] in multiset(specs.value);
    }
    var read := ReadSpecs(specs.value);
    if read.None? {
      if AllGood(SpecsOfAll(suites)) {
        OrderIsIrrelevant(SpecsOfAll(suites), specs.value);
      }
      return None;
    }
    var (tests, loadErrors) := read.value;
    OrderIsIrrelevant(specs.value, SpecsOfAll(suites));
    SameTests(tests, TestsOfSpecs(SpecsOfAll(suites)));
    var title: Option<string> := None;
    var status: Option<TestStatus> := None;
    if |tests| == 1 {
      title, status := Some(tests[0].title), Some(Mapped(tests[0]));
    }
    r := Some(Report(|tests|, title, status, |Get(p, "errors").items|, loadErrors));
  }

  lemma SameTests(a: seq<Test>, b: seq<Test>)
    requires multiset(a) == multiset(b)
    ensures |a| == |b| && (|a| == 1 ==> a == b)
  {
    assert |a| == |multiset(a)| && |b| == |multiset(b)|;
    if |a| == 1 {
      assert a[0] in multiset(b);
    }
  }

  lemma {:induction false} SpecsAreObjects(suites: seq<Json>)
    requires GoodShapes(suites)
    ensures forall x :: x in SpecsOfAll(suites) ==> x.Obj?
    decreases SizeOfAll(suites)
  {
    if suites != [] {
      var suite, others := suites[|suites| - 1], suites[..|suites| - 1];
      assert suites == others + [suite];
      VisitOne(others, suite);
      PushKeepsShapes(others, suite);
      SpecsAreObjects(others + Nested(suite));
      forall x | x in SpecsOfAll(suites) ensures x.Obj? {
        assert x in multiset(SpecsOfAll(suites));
      }
    }
  }
}
