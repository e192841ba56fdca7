/** What a well-formed report is, node by node, and that a printed report reads back. */
module PlaywrightTrees {
  import opened Common
  import opened PlaywrightReport

  // ------------------------------------------------------------ node by node

  /** The suite that is reached by these positions, each within the suites of the one before. */
  function SuiteAt(suites: seq<Json>, path: seq<nat>): Option<Json>
    decreases |path|
  {
    if path == [] || path[0] >= |suites| then None
    else if |path| == 1 then Some(suites[path[0]])
    else SuiteAt(Nested(suites[path[0]]), path[1..])
  }

  /** Absent, null, or a list of objects. */
  predicate ObjectList(j: Json) {
    j == Null || (j.Arr? && forall i :: 0 <= i < |j.items| ==> j.items[i].Obj?)
  }

  /** What Python takes for false. */
  predicate Falsy(j: Json) {
    j in {Null, Bool(false), Num(0), Str(""), Arr([]), Obj(map[])}
  }

  predicate ResultOk(r: Json) {
    r.Obj? && Get(r, "status").Str?
  }

  predicate TestOk(t: Json) {
    && t.Obj? && Get(t, "status").Str? && Get(t, "results").Arr? && |Get(t, "results").items| > 0
    && forall i :: 0 <= i < |Get(t, "results").items| ==> ResultOk(Get(t, "results").items[i])
  }

  predicate SpecOk(s: Json) {
    && s.Obj? && Get(s, "title").Str?
    && (Falsy(Get(s, "errors")) || (Get(s, "errors").Arr? && ObjectList(Get(s, "errors"))))
    && ObjectList(Get(s, "tests"))
    && (Get(s, "tests").Arr? ==>
          forall i :: 0 <= i < |Get(s, "tests").items| ==> TestOk(Get(s, "tests").items[i]))
  }

  predicate SuiteOk(s: Json) {
    && s.Obj? && ObjectList(Get(s, "suites")) && ObjectList(Get(s, "specs"))
    && (Get(s, "specs").Arr? ==>
          forall i :: 0 <= i < |Get(s, "specs").items| ==> SpecOk(Get(s, "specs").items[i]))
  }

  lemma TestIs(t: Json)
    ensures GoodTest(t) <==> TestOk(t)
  {
    if t.Obj? && Get(t, "results").Arr? {
      var results := Get(t, "results").items;
      assert forall i :: 0 <= i < |results| ==> (GoodResult(results[i]) <==> ResultOk(results[i]));
    }
  }

  lemma SpecIs(s: Json)
    ensures GoodSpec(s) <==> SpecOk(s)
  {
    if s.Obj? {
      var tests := Elements(Get(s, "tests"));
      forall i | 0 <= i < |tests| ensures GoodTest(tests[i]) <==> TestOk(tests[i]) {
        TestIs(tests[i]);
      }
    }
  }

  lemma SuiteIs(s: Json)
    ensures GoodSuite(s) <==> SuiteOk(s) && forall i :: 0 <= i < |Nested(s)| ==> GoodSuite(Nested(s)[i])
  {
    var specs := OwnSpecs(s);
    forall i | 0 <= i < |specs| ensures GoodSpec(specs[i]) <==> SpecOk(specs[i]) {
      SpecIs(specs[i]);
    }
  }

  lemma {:induction false} AllBelowAreGood(suites: seq<Json>, path: seq<nat>)
    requires GoodSuites(suites) && SuiteAt(suites, path).Some?
    ensures SuiteOk(SuiteAt(suites, path).value)
    decreases |path|
  {
    SuiteIs(suites[path[0]]);
    if |path| > 1 {
      AllBelowAreGood(Nested(suites[path[0]]), path[1..]);
    }
  }

  lemma {:induction false} BadBelow(bound: Json, suites: seq<Json>) returns (path: seq<nat>)
    requires !GoodSuites(suites) && forall i :: 0 <= i < |suites| ==> suites[i] < bound
    ensures SuiteAt(suites, path).Some? && !SuiteOk(SuiteAt(suites, path).value)
    decreases bound
  {
    var i :| 0 <= i < |suites| && !GoodSuite(suites[i]);
    SuiteIs(suites[i]);
    if !SuiteOk(suites[i]) {
      path := [i];
    } else {
      var rest := BadBelow(suites[i], Nested(suites[i]));
      path := [i] + rest;
      assert path[1..] == rest;
    }
  }

  /** A report is refused exactly when its top is malformed, or some suite of it is, at whatever depth. */
  lemma WellFormedExactly(p: Json)
    ensures GoodPayload(p) <==>
            && p.Obj? && Get(p, "errors").Arr? && Get(p, "suites").Arr?
            && forall path :: SuiteAt(Get(p, "suites").items, path).Some? ==>
                 SuiteOk(SuiteAt(Get(p, "suites").items, path).value)
  {
    if p.Obj? && Get(p, "errors").Arr? && Get(p, "suites").Arr? {
      var suites := Get(p, "suites").items;
      assert Elements(Get(p, "suites")) == suites;
      if GoodSuites(suites) {
        forall path | SuiteAt(suites, path).Some? ensures SuiteOk(SuiteAt(suites, path).value) {
          AllBelowAreGood(suites, path);
        }
      } else {
        var path := BadBelow(p, suites);
      }
    }
  }

  // ----------------------------------------------------------- printed reports

  /** A test and the status of each of its results. */
  datatype TestTree = TestTree(status: string, results: seq<string>)

  datatype SpecTree = SpecTree(title: string, tests: seq<TestTree>, loadErrors: nat)

  datatype SuiteTree = SuiteTree(specs: seq<SpecTree>, suites: seq<SuiteTree>)

  /** Every test has a result. */
  predicate HasResults(s: SpecTree) {
    forall i :: 0 <= i < |s.tests| ==> s.tests[i].results != []
  }

  predicate Complete(s: SuiteTree) {
    && (forall i :: 0 <= i < |s.specs| ==> HasResults(s.specs[i]))
    && (forall i :: 0 <= i < |s.suites| ==> Complete(s.suites[i]))
  }

  function PrintTest(t: TestTree): Json {
    Obj(map["status" := Str(t.status),
            "results" := Arr(seq(|t.results|, i requires 0 <= i < |t.results| =>
              Obj(map["status" := Str(t.results[i])])))])
  }

  function PrintSpec(s: SpecTree): Json {
    Obj(map["title" := Str(s.title),
            "errors" := Arr(seq(s.loadErrors, _ => Obj(map[]))),
            "tests" := Arr(seq(|s.tests|, i requires 0 <= i < |s.tests| => PrintTest(s.tests[i])))])
  }

  function PrintSpecs(specs: seq<SpecTree>): (r: seq<Json>)
    ensures |r| == |specs|
  {
    seq(|specs|, i requires 0 <= i < |specs| => PrintSpec(specs[i]))
  }

  function PrintSuite(s: SuiteTree): Json
    decreases s
  {
    Obj(map["specs" := Arr(PrintSpecs(s.specs)),
            "suites" := Arr(seq(|s.suites|, i requires 0 <= i < |s.suites| => PrintSuite(s.suites[i])))])
  }

  function PrintSuites(suites: seq<SuiteTree>): (r: seq<Json>)
    ensures |r| == |suites|
  {
    seq(|suites|, i requires 0 <= i < |suites| => PrintSuite(suites[i]))
  }

  function PrintReport(suites: seq<SuiteTree>, topLevelErrors: seq<Json>): Json {
    Obj(map["errors" := Arr(topLevelErrors), "suites" := Arr(PrintSuites(suites))])
  }

  /** What a report is to say: its tests in document order, each with its last result, and its load errors. */
  datatype Content = Content(tests: seq<Test>, loadErrors: nat)

  function Plus(a: Content, b: Content): Content {
    Content(a.tests + b.tests, a.loadErrors + b.loadErrors)
  }

  function TestsOfSpec(s: SpecTree): seq<Test>
    requires HasResults(s)
  {
    seq(|s.tests|, i requires 0 <= i < |s.tests| =>
      Test(s.title, s.tests[i].status, s.tests[i].results[|s.tests[i].results| - 1]))
  }

  function OfSpecs(specs: seq<SpecTree>): Content
    requires forall i :: 0 <= i < |specs| ==> HasResults(specs[i])
  {
    if specs == [] then Content([], 0)
    else
      var last := specs[|specs| - 1];
      Plus(OfSpecs(specs[..|specs| - 1]), Content(TestsOfSpec(last), last.loadErrors))
  }

  function OfSuite(s: SuiteTree): Content
    requires Complete(s)
    decreases s, 1
  {
    Plus(OfSpecs(s.specs), OfNested(s, |s.suites|))
  }

  function OfNested(s: SuiteTree, n: nat): Content
    requires Complete(s) && n <= |s.suites|
    decreases s, 0, n
  {
    if n == 0 then Content([], 0) else Plus(OfNested(s, n - 1), OfSuite(s.suites[n - 1]))
  }

  function OfSuites(suites: seq<SuiteTree>): Content
    requires forall i :: 0 <= i < |suites| ==> Complete(suites[i])
  {
    if suites == [] then Content([], 0)
    else Plus(OfSuites(suites[..|suites| - 1]), OfSuite(suites[|suites| - 1]))
  }

  /** The recursive reading of these specs says this. */
  ghost predicate Reads(specs: seq<Json>, c: Content) {
    AllGood(specs) && TestsOfSpecs(specs) == c.tests && ErrorsOfSpecs(specs) == c.loadErrors
  }

  lemma ReadsPlus(a: seq<Json>, b: seq<Json>, c: Content, d: Content)
    requires Reads(a, c) && Reads(b, d)
    ensures Reads(a + b, Plus(c, d))
  {
    TestsOfAppend(a, b);
  }

  lemma PrintedTest(t: TestTree, title: string)
    requires t.results != []
    ensures GoodTest(PrintTest(t))
    ensures TestOf(title, PrintTest(t)) == Test(title, t.status, t.results[|t.results| - 1])
  {
    var results := Get(PrintTest(t), "results").items;
    assert forall i :: 0 <= i < |results| ==> GoodResult(results[i]);
  }

  lemma PrintedSpec(s: SpecTree)
    requires HasResults(s)
    ensures GoodSpec(PrintSpec(s)) && SpecTests(PrintSpec(s)) == TestsOfSpec(s)
            && SpecErrors(PrintSpec(s)) == s.loadErrors
  {
    var p := PrintSpec(s);
    var tests := Elements(Get(p, "tests"));
    forall i | 0 <= i < |tests|
      ensures GoodTest(tests[i]) && TestOf(s.title, tests[i]) == TestsOfSpec(s)[i]
    {
      PrintedTest(s.tests[i], s.title);
    }
  }

  lemma {:induction false} PrintedSpecs(specs: seq<SpecTree>)
    requires forall i :: 0 <= i < |specs| ==> HasResults(specs[i])
    ensures Reads(PrintSpecs(specs), OfSpecs(specs))
  {
    if specs != [] {
      var earlier, last := specs[..|specs| - 1], specs[|specs| - 1];
      PrintedSpecs(earlier);
      PrintedSpec(last);
      assert PrintSpecs(specs) == PrintSpecs(earlier) + [PrintSpec(last)];
      OneSpecReads(PrintSpec(last), Content(TestsOfSpec(last), last.loadErrors));
      ReadsPlus(PrintSpecs(earlier), [PrintSpec(last)], OfSpecs(earlier), Content(TestsOfSpec(last), last.loadErrors));
    }
  }

  lemma OneSpecReads(p: Json, c: Content)
    requires GoodSpec(p) && SpecTests(p) == c.tests && SpecErrors(p) == c.loadErrors
    ensures Reads([p], c)
  {
    assert [p][..0] == [];
    assert [] + SpecTests(p) == SpecTests(p);
  }

  lemma PrintedParts(s: SuiteTree)
    ensures Nested(PrintSuite(s)) == PrintSuites(s.suites) && OwnSpecs(PrintSuite(s)) == PrintSpecs(s.specs)
    ensures PrintSuite(s).Obj? && ObjectList(Get(PrintSuite(s), "suites")) && ObjectList(Get(PrintSuite(s), "specs"))
  {
  }

  lemma {:induction false} PrintedShape(s: SuiteTree)
    ensures GoodShape(PrintSuite(s))
    decreases s
  {
    PrintedParts(s);
    forall i | 0 <= i < |s.suites| ensures GoodShape(PrintSuites(s.suites)[i]) {
      PrintedShape(s.suites[i]);
    }
  }

  lemma {:induction false} PrintedSuite(s: SuiteTree)
    requires Complete(s)
    ensures Reads(SpecsOf(PrintSuite(s)), OfSuite(s))
    decreases s, 1
  {
    SuiteUnfolds(PrintSuite(s));
    PrintedParts(s);
    PrintedSpecs(s.specs);
    PrintedNested(s, |s.suites|);
    assert s.suites[..|s.suites|] == s.suites;
    ReadsPlus(PrintSpecs(s.specs), SpecsOfAll(PrintSuites(s.suites)), OfSpecs(s.specs), OfNested(s, |s.suites|));
  }

  lemma OneMorePrinted(suites: seq<SuiteTree>, n: nat)
    requires n < |suites|
    ensures SpecsOfAll(PrintSuites(suites[..n + 1])) ==
            SpecsOfAll(PrintSuites(suites[..n])) + SpecsOf(PrintSuite(suites[n]))
  {
    var all := PrintSuites(suites[..n + 1]);
    assert all[..n] == PrintSuites(suites[..n]);
  }

  lemma {:induction false} PrintedNested(s: SuiteTree, n: nat)
    requires Complete(s) && n <= |s.suites|
    ensures Reads(SpecsOfAll(PrintSuites(s.suites[..n])), OfNested(s, n))
    decreases s, 0, n
  {
    if n > 0 {
      PrintedNested(s, n - 1);
      PrintedSuite(s.suites[n - 1]);
      OneMorePrinted(s.suites, n - 1);
      ReadsPlus(SpecsOfAll(PrintSuites(s.suites[..n - 1])), SpecsOf(PrintSuite(s.suites[n - 1])),
                OfNested(s, n - 1), OfSuite(s.suites[n - 1]));
    }
  }

  lemma {:induction false} PrintedSuites(suites: seq<SuiteTree>)
    requires forall i :: 0 <= i < |suites| ==> Complete(suites[i])
    ensures Reads(SpecsOfAll(PrintSuites(suites)), OfSuites(suites))
  {
    if suites != [] {
      var n := |suites| - 1;
      PrintedSuites(suites[..n]);
      PrintedSuite(suites[n]);
      assert suites[..n + 1] == suites;
      OneMorePrinted(suites, n);
      ReadsPlus(SpecsOfAll(PrintSuites(suites[..n])), SpecsOf(PrintSuite(suites[n])),
                OfSuites(suites[..n]), OfSuite(suites[n]));
    }
  }

  lemma PrintedIsGood(suites: seq<SuiteTree>, topLevelErrors: seq<Json>)
    requires forall i :: 0 <= i < |suites| ==> Complete(suites[i])
    ensures var p := PrintReport(suites, topLevelErrors);
            GoodPayload(p) && Get(p, "errors") == Arr(topLevelErrors) && Get(p, "suites") == Arr(PrintSuites(suites))
  {
    PrintedSuites(suites);
    forall i | 0 <= i < |suites| ensures GoodShape(PrintSuites(suites)[i]) {
      PrintedShape(suites[i]);
    }
    PayloadIsShapes(PrintReport(suites, topLevelErrors));
  }

  /** A printed report is accepted, and read as its tests in document order, each with its last result. */
  lemma PrintedReportReadsBack(suites: seq<SuiteTree>, topLevelErrors: seq<Json>)
    requires forall i :: 0 <= i < |suites| ==> Complete(suites[i])
    ensures var p := PrintReport(suites, topLevelErrors);
            && GoodPayload(p) && Get(p, "errors") == Arr(topLevelErrors)
            && TestsOfSpecs(PayloadSpecs(p)) == OfSuites(suites).tests
            && ErrorsOfSpecs(PayloadSpecs(p)) == OfSuites(suites).loadErrors
  {
    PrintedIsGood(suites, topLevelErrors);
    PrintedSuites(suites);
  }
}
