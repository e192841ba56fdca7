/** Whole-run regression soundness. */
module RegressionSoundness {
  // The goal machine runs over a workspace of files that anyone may edit at any time; each verification runs the suite
  // the server selects from what actually changed.

  import opened Common
  import opened GoalManager
  import opened GoalRuns
  import opened RegressionSuites

  /** A workspace snapshot: each path's content. */
  type Files = map<string, string>

  /** The paths on which two snapshots differ, added and deleted paths included. */
  function Delta(before: Files, after: Files): (paths: set<string>)
    ensures forall p :: p in paths <==> !SameAt(before, after, p)
  {
    (set p | p in before && !SameAt(before, after, p)) + (set p | p in after && !SameAt(before, after, p))
  }

  predicate SameAt(a: Files, b: Files, path: string) {
    (path in a <==> path in b) && (path in a && path in b ==> a[path] == b[path])
  }

  /**
   `start` is the workspace at the current goal's boundary, `checkpoint` the last verified one,
   `changed[i]` the paths recorded for verified goal `i`, `passed[i]` the workspace its acceptance
   last passed on and `ran[i]` the one it last ran on, whatever came of it. `unknown` forces a full
   suite when the boundary cannot be trusted.
   */
  datatype Run = Run(
    graph: GoalGraph,
    files: Files,
    start: Files,
    checkpoint: Option<Files>,
    unknown: bool,
    changed: seq<set<string>>,
    passed: seq<Files>,
    ran: seq<Files>)

  /**
   A resumed continuation keeps the workspace and its goal's boundary but trusts neither. A restart
   without one rebuilds the workspace from the checkpoint, or from the base when there is none, takes
   the boundary there, and distrusts it only when the checkpoint is a legacy one without change lists.
   A verification that fails before its acceptance gates, in the type check or the build, runs no
   acceptance at all; one that reaches them runs those of every goal of the suite.
   */
  datatype Event =
    | Edit(files: Files)
    | Begin
    | Resume
    | Restart(base: Files, legacy: bool)
    | ClaimGoal
    | VerificationFailed(acceptanceRan: bool)
    | VerificationPassed(audited: set<string>)

  function Union(sets: seq<set<string>>): set<string> {
    if sets == [] then {} else sets[0] + Union(sets[1..])
  }

  function FullReason(r: Run): Option<ValidationReason> {
    if r.unknown then Some(LegacyCheckpointUnknownPaths)
    else EarlyFullValidationReason(Delta(r.start, r.files), Union(r.changed))
  }

  /** The suite that a verification would run now includes goal `i`. */
  predicate Covers(r: Run, i: nat) {
    match BuildRegressionSuite(r.graph, FullReason(r))
    case Err(_) => false
    case Ok(suite) => i < |r.graph.goals| && r.graph.goals[i].id in suite.goalIds
  }

  /** Goals the suite covers have now run on the current files; the others keep what they last ran on. */
  function Executed(r: Run, before: seq<Files>, n: nat): (after: seq<Files>)
    ensures |after| == n
  {
    seq(n, i requires 0 <= i < n => if i >= |before| || Covers(r, i) then r.files else before[i])
  }

  /** An event that the machine refuses leaves the run as it was. */
  function Next(r: Run, e: Event): Run {
    match e
    case Edit(files) => r.(files := files)
    case Begin =>
      if !CanBegin(r) then r
      else r.(graph := After(r.graph, Activate), start := r.files,
              unknown := r.unknown || (r.checkpoint.Some? && r.files != r.checkpoint.value))
    case Resume => r.(unknown := true)
    case Restart(base, legacy) =>
      var rebuilt := if r.checkpoint.Some? then r.checkpoint.value else base;
      r.(graph := After(r.graph, Retry), files := rebuilt, start := rebuilt, unknown := legacy)
    case ClaimGoal => r.(graph := After(r.graph, Claim))
    case VerificationFailed(acceptanceRan) =>
      r.(graph := After(r.graph, Retry), ran := if acceptanceRan then Executed(r, r.ran, |r.ran|) else r.ran)
    case VerificationPassed(audited) =>
      match BuildRegressionSuite(r.graph, FullReason(r))
      case Err(_) => r
      case Ok(suite) =>
        var delta := Delta(r.start, r.files);
        r.(graph := After(r.graph, Op.Verify), checkpoint := Some(r.files), unknown := false,
           changed := r.changed + [if r.unknown then audited + delta else delta],
           passed := Executed(r, r.passed, |r.passed| + 1), ran := Executed(r, r.ran, |r.ran| + 1))
  }

  /** A goal boundary: activation is about to change the graph. */
  predicate CanBegin(r: Run) {
    After(r.graph, Activate) != r.graph
  }

  function RunAll(r: Run, events: seq<Event>): Run {
    if events == [] then r else Next(RunAll(r, events[..|events| - 1]), events[|events| - 1])
  }

  ghost predicate InitialRun(r: Run) {
    Initial(r.graph) && ManifestOk(r.graph) && r.checkpoint == None && !r.unknown && r.changed == []
    && r.passed == [] && r.ran == []
  }

  /** What every verified goal changed is, at the last checkpoint, what its acceptance last passed on. */
  ghost predicate CheckpointSound(r: Run) {
    && |r.changed| == |r.passed|
    && (r.passed != [] ==> r.checkpoint.Some?)
    && forall i, p :: 0 <= i < |r.passed| && p in r.changed[i] ==> SameAt(r.passed[i], r.checkpoint.value, p)
  }

  /** While a goal is under way with a trusted boundary, that boundary is the checkpoint. */
  ghost predicate BoundaryKnown(r: Run, p: Position) {
    p.phase != Pending && !r.unknown && r.checkpoint.Some? ==> r.start == r.checkpoint.value
  }

  ghost predicate Sound(r: Run, start: GoalGraph, p: Position) {
    && Initial(start) && ManifestOk(start) && OnTrack(|start.goals|, p)
    && r.graph == StateAt(start, p.k, p.phase)
    && |r.passed| == p.k && CheckpointSound(r) && BoundaryKnown(r, p)
  }

  lemma {:induction false} InUnion(sets: seq<set<string>>, i: nat, x: string)
    requires i < |sets| && x in sets[i]
    ensures x in Union(sets)
  {
    if i > 0 {
      InUnion(sets[1..], i - 1, x);
    }
  }

  /** The heart: a suite that leaves a verified goal out is only selected when none of its files changed. */
  lemma SkippedGoalsAreUntouched(r: Run, start: GoalGraph, p: Position, i: nat, path: string)
    requires Sound(r, start, p) && p.phase == Claimed && i < p.k
    requires var built := BuildRegressionSuite(r.graph, FullReason(r));
             built.Ok? && start.goals[i].id !in built.value.goalIds
    requires path in r.changed[i]
    ensures SameAt(r.files, r.checkpoint.value, path)
  {
    SuiteAtClaim(start, p.k, FullReason(r));
    var suite := BuildRegressionSuite(r.graph, FullReason(r)).value;
    assert GoalIds(start.goals)[..p.k + 1][i] == start.goals[i].id;
    assert FullReason(r).None?;
    InUnion(r.changed, i, path);
    assert Delta(r.start, r.files) * Union(r.changed) == {};
    assert path !in Delta(r.start, r.files);
  }

  lemma SameGoalIds(start: GoalGraph, k: nat, phase: GoalStatus, i: nat)
    requires i < |start.goals|
    ensures |StateAt(start, k, phase).goals| == |start.goals|
            && StateAt(start, k, phase).goals[i].id == start.goals[i].id
  {
  }

  /** After the suite passed, an earlier goal has either just passed on these files, or none of its files changed. */
  lemma EarlierGoalStaysSound(r: Run, start: GoalGraph, p: Position, i: nat, path: string)
    requires Sound(r, start, p) && p.phase == Claimed && i < p.k && path in r.changed[i]
    ensures SameAt(Executed(r, r.passed, p.k + 1)[i], r.files, path)
  {
    SameGoalIds(start, p.k, p.phase, i);
    SuiteAtClaim(start, p.k, FullReason(r));
    if !Covers(r, i) {
      SkippedGoalsAreUntouched(r, start, p, i, path);
    }
  }

  lemma CheckpointStaysSound(r: Run, start: GoalGraph, p: Position, changed: seq<set<string>>)
    requires Sound(r, start, p) && p.phase == Claimed
    requires |changed| == p.k + 1 && changed[..p.k] == r.changed
    ensures forall i, path :: 0 <= i < p.k + 1 && path in changed[i] ==>
                                SameAt(Executed(r, r.passed, p.k + 1)[i], r.files, path)
  {
    forall i, path | 0 <= i < p.k + 1 && path in changed[i]
      ensures SameAt(Executed(r, r.passed, p.k + 1)[i], r.files, path) {
      if i < p.k {
        assert changed[i] == changed[..p.k][i] == r.changed[i];
        EarlierGoalStaysSound(r, start, p, i, path);
      }
    }
  }

  lemma PassMovesGraph(r: Run, start: GoalGraph, p: Position)
    requires Sound(r, start, p) && p.phase == Claimed
    ensures p.k < |start.goals| && After(r.graph, Op.Verify) == StateAt(start, p.k + 1, Pending)
    ensures OnTrack(|start.goals|, Position(p.k + 1, Pending))
  {
    OpRefinesMove(start, p, Op.Verify);
  }

  lemma PassBuilds(r: Run, start: GoalGraph, p: Position)
    requires Sound(r, start, p) && p.phase == Claimed
    ensures BuildRegressionSuite(r.graph, FullReason(r)).Ok?
  {
    SuiteAtClaim(start, p.k, FullReason(r));
  }

  /** What a verification that passes records. */
  lemma PassRecords(r: Run, audited: set<string>)
    requires BuildRegressionSuite(r.graph, FullReason(r)).Ok?
    ensures var t, delta := Next(r, VerificationPassed(audited)), Delta(r.start, r.files);
            && t.graph == After(r.graph, Op.Verify)
            && t.files == r.files && t.checkpoint == Some(r.files) && !t.unknown
            && t.changed == r.changed + [if r.unknown then audited + delta else delta]
            && t.passed == Executed(r, r.passed, |r.passed| + 1)
  {
  }

  lemma VerificationKeepsSound(r: Run, start: GoalGraph, p: Position, audited: set<string>)
    requires Sound(r, start, p) && p.phase == Claimed
    ensures Sound(Next(r, VerificationPassed(audited)), start, Position(p.k + 1, Pending))
    ensures Next(r, VerificationPassed(audited)).checkpoint == Some(r.files)
  {
    PassMovesGraph(r, start, p);
    PassBuilds(r, start, p);
    PassRecords(r, audited);
    CheckpointStaysSound(r, start, p, Next(r, VerificationPassed(audited)).changed);
  }

  lemma EventKeepsSound(r: Run, start: GoalGraph, p: Position, e: Event) returns (q: Position)
    requires Sound(r, start, p)
    ensures Sound(Next(r, e), start, q)
  {
    q := p;
    match e {
      case Begin =>
        OpRefinesMove(start, p, Activate);
        if CanBegin(r) {
          q := Position(p.k, Active);
        }
      case ClaimGoal =>
        OpRefinesMove(start, p, Claim);
        q := Move(|start.goals|, p, Claim);
      case VerificationFailed(_) =>
        OpRefinesMove(start, p, Retry);
        q := Move(|start.goals|, p, Retry);
      case Restart(_, _) =>
        OpRefinesMove(start, p, Retry);
        q := Move(|start.goals|, p, Retry);
      case VerificationPassed(audited) =>
        if p.phase == Claimed {
          VerificationKeepsSound(r, start, p, audited);
          q := Position(p.k + 1, Pending);
        } else {
          CurrentAt(start, p.k, p.phase);
        }
      case _ =>
    }
  }

  lemma {:induction false} RunKeepsSound(r: Run, events: seq<Event>) returns (p: Position)
    requires InitialRun(r)
    ensures Sound(RunAll(r, events), r.graph, p)
  {
    if events == [] {
      InitialIsCanonical(r.graph);
      p := Position(0, Pending);
    } else {
      var q := RunKeepsSound(r, events[..|events| - 1]);
      p := EventKeepsSound(RunAll(r, events[..|events| - 1]), r.graph, q, events[|events| - 1]);
    }
  }

  /**
   After every verification that passes, whatever was edited, drifted, retried or resumed before it, each
   file a verified goal changed still has the content under which that goal's own acceptance last passed.
   */
  lemma RegressionSoundness(r: Run, events: seq<Event>, audited: set<string>)
    requires InitialRun(r)
    ensures var before := RunAll(r, events);
            var t := Next(before, VerificationPassed(audited));
            && |t.changed| == |t.passed|
            && (t != before ==>
                forall i, path :: 0 <= i < |t.passed| && path in t.changed[i] ==> SameAt(t.passed[i], t.files, path))
  {
    var before := RunAll(r, events);
    var p := RunKeepsSound(r, events);
    if p.phase == Claimed {
      VerificationKeepsSound(before, r.graph, p, audited);
    } else {
      CurrentAt(r.graph, p.k, p.phase);
    }
  }
}
