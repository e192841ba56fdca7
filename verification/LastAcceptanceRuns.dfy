/** What a goal's acceptance last ran on, whatever came of it. */
module LastAcceptanceRuns {
  // A full suite that fails runs earlier goals too, on a workspace that may then be reverted, so this is not always
  // what the last checkpoint holds. Proved here is exactly when it is.

  import opened Common
  import opened GoalManager
  import opened GoalRuns
  import opened RegressionSuites
  import opened RegressionSoundness

  /**
   The workspace of the latest failed verification that ran goal `i`'s acceptance, if none that ran it passed since.
   */
  function FailedSincePassing(r: Run, events: seq<Event>, i: nat): Option<Files> {
    if events == [] then None
    else
      var before := RunAll(r, events[..|events| - 1]);
      var earlier := FailedSincePassing(r, events[..|events| - 1], i);
      match events[|events| - 1]
      case VerificationFailed(acceptanceRan) =>
        if acceptanceRan && Covers(before, i) then Some(before.files) else earlier
      case VerificationPassed(_) => if Covers(before, i) then None else earlier
      case _ => earlier
  }

  /** What goal `i` last ran on follows from the history: the last failure since it passed, or what it passed on. */
  ghost predicate Tracked(r: Run, events: seq<Event>) {
    var t := RunAll(r, events);
    && |t.ran| == |t.passed|
    && forall i :: 0 <= i < |t.passed| ==> t.ran[i] == Or(FailedSincePassing(r, events, i), t.passed[i])
  }

  function Or(failed: Option<Files>, passed: Files): Files {
    match failed case None => passed case Some(files) => files
  }

  /** The suite at a claim covers the claimed goal, and with a full reason or at the last goal every earlier one. */
  lemma CoveredAtClaim(r: Run, start: GoalGraph, p: Position, i: nat)
    requires Sound(r, start, p) && p.phase == Claimed && i <= p.k
    ensures i == p.k || RunsFull(start, p.k, FullReason(r)) ==> Covers(r, i)
    ensures BuildRegressionSuite(r.graph, FullReason(r)).Ok?
  {
    SuiteAtClaim(start, p.k, FullReason(r));
    SameGoalIds(start, p.k, p.phase, i);
    assert GoalIds(start.goals)[..p.k + 1][i] == start.goals[i].id;
  }

  lemma NothingToVerify(r: Run, start: GoalGraph, p: Position)
    requires Sound(r, start, p) && p.phase != Claimed
    ensures BuildRegressionSuite(r.graph, FullReason(r)).Err?
  {
    CurrentAt(start, p.k, p.phase);
  }

  lemma LastEvent(r: Run, earlier: seq<Event>, e: Event)
    ensures RunAll(r, earlier + [e]) == Next(RunAll(r, earlier), e)
    ensures forall i: nat :: FailedSincePassing(r, earlier + [e], i) ==
                             var before := RunAll(r, earlier);
                             if e.VerificationFailed? && e.acceptanceRan && Covers(before, i) then Some(before.files)
                             else if e.VerificationPassed? && Covers(before, i) then None
                             else FailedSincePassing(r, earlier, i)
  {
    assert (earlier + [e])[..|earlier + [e]| - 1] == earlier;
  }

  lemma PassedIsTracked(r: Run, earlier: seq<Event>, audited: set<string>, start: GoalGraph, p: Position)
    requires Tracked(r, earlier) && Sound(RunAll(r, earlier), start, p)
    ensures Tracked(r, earlier + [VerificationPassed(audited)])
  {
    var before := RunAll(r, earlier);
    LastEvent(r, earlier, VerificationPassed(audited));
    if p.phase == Claimed {
      CoveredAtClaim(before, start, p, p.k);
    } else {
      NothingToVerify(before, start, p);
    }
  }

  lemma {:induction false} AlwaysTracked(r: Run, events: seq<Event>)
    requires InitialRun(r)
    ensures Tracked(r, events)
  {
    if events != [] {
      var earlier, e := events[..|events| - 1], events[|events| - 1];
      AlwaysTracked(r, earlier);
      assert events == earlier + [e];
      LastEvent(r, earlier, e);
      if e.VerificationPassed? {
        var p := RunKeepsSound(r, earlier);
        PassedIsTracked(r, earlier, e.audited, r.graph, p);
      }
    }
  }

  /** A failed workspace had this path as the last checkpoint has it. */
  predicate AsAtCheckpoint(r: Run, failed: Files, path: string) {
    r.checkpoint.Some? && SameAt(failed, r.checkpoint.value, path)
  }

  /**
   When a verification passes, a file that a verified goal changed is as that goal's acceptance last ran on it if and
   only if the suite ran that goal again, or no verification that ran it has failed since it passed, or the last one
   that did had the file as the checkpoint has it.
   */
  lemma LastRunIsSoundExactlyWhen(r: Run, events: seq<Event>, audited: set<string>, i: nat, path: string)
    requires InitialRun(r)
    requires var before := RunAll(r, events); BuildRegressionSuite(before.graph, FullReason(before)).Ok?
    requires var t := RunAll(r, events + [VerificationPassed(audited)]);
             i < |t.passed| && i < |t.changed| && path in t.changed[i]
    ensures var before, t := RunAll(r, events), RunAll(r, events + [VerificationPassed(audited)]);
            && |t.ran| == |t.passed|
            && (SameAt(t.ran[i], t.files, path) <==>
                || Covers(before, i)
                || (match FailedSincePassing(r, events, i)
                    case None => true
                    case Some(failed) => AsAtCheckpoint(before, failed, path)))
  {
    var before := RunAll(r, events);
    var p := RunKeepsSound(r, events);
    AlwaysTracked(r, events);
    LastEvent(r, events, VerificationPassed(audited));
    if p.phase == Claimed {
      CoveredAtClaim(before, r.graph, p, p.k);
      if !Covers(before, i) {
        SkippedIsAtCheckpoint(before, r.graph, p, i, path);
      }
    } else {
      NothingToVerify(before, r.graph, p);
    }
  }

  lemma SkippedIsAtCheckpoint(r: Run, start: GoalGraph, p: Position, i: nat, path: string)
    requires Sound(r, start, p) && p.phase == Claimed && i < p.k && path in r.changed[i] && !Covers(r, i)
    ensures r.checkpoint.Some? && SameAt(r.files, r.checkpoint.value, path)
            && SameAt(r.passed[i], r.checkpoint.value, path)
  {
    SuiteAtClaim(start, p.k, FullReason(r));
    SameGoalIds(start, p.k, p.phase, i);
    SkippedGoalsAreUntouched(r, start, p, i, path);
  }

  lemma FullCoversAll(r: Run, start: GoalGraph, p: Position)
    requires Sound(r, start, p) && p.phase == Claimed && RunsFull(start, p.k, FullReason(r))
    ensures forall i :: 0 <= i <= p.k ==> Covers(r, i)
  {
    forall i | 0 <= i <= p.k ensures Covers(r, i) {
      CoveredAtClaim(r, start, p, i);
    }
  }

  lemma ExecutedAll(r: Run, before: seq<Files>, n: nat)
    requires forall i :: 0 <= i < n ==> Covers(r, i)
    ensures forall i :: 0 <= i < n ==> Executed(r, before, n)[i] == r.files
  {
  }

  lemma PassesEverything(r: Run, start: GoalGraph, p: Position, audited: set<string>)
    requires Sound(r, start, p) && p.phase == Claimed && RunsFull(start, p.k, FullReason(r)) && |r.ran| == |r.passed|
    ensures var t := Next(r, VerificationPassed(audited));
            |t.ran| == |t.passed| == p.k + 1 && forall i :: 0 <= i < |t.ran| ==> t.ran[i] == t.passed[i] == t.files
  {
    FullCoversAll(r, start, p);
    CoveredAtClaim(r, start, p, p.k);
    ExecutedAll(r, r.ran, p.k + 1);
    ExecutedAll(r, r.passed, p.k + 1);
  }

  /** After a full suite passed every verified goal has last run, and passed, on these very files. */
  lemma FullSuiteRunsEverything(r: Run, events: seq<Event>, audited: set<string>)
    requires InitialRun(r)
    requires var before := RunAll(r, events);
             var built := BuildRegressionSuite(before.graph, FullReason(before)); built.Ok? && built.value.mode == Full
    ensures var t := RunAll(r, events + [VerificationPassed(audited)]);
            |t.ran| == |t.passed| && forall i :: 0 <= i < |t.ran| ==> t.ran[i] == t.passed[i] == t.files
  {
    var before := RunAll(r, events);
    var p := RunKeepsSound(r, events);
    AlwaysTracked(r, events);
    LastEvent(r, events, VerificationPassed(audited));
    if p.phase == Claimed {
      SuiteAtClaim(r.graph, p.k, FullReason(before));
      PassesEverything(before, r.graph, p, audited);
    } else {
      NothingToVerify(before, r.graph, p);
    }
  }

  /** The verification that makes the graph verified has just run every goal of it, on the files it leaves. */
  lemma VerifiedGraphRanOnItsFiles(r: Run, events: seq<Event>, audited: set<string>)
    requires InitialRun(r) && RunAll(r, events).graph.status != GraphVerified
    requires RunAll(r, events + [VerificationPassed(audited)]).graph.status == GraphVerified
    ensures var t := RunAll(r, events + [VerificationPassed(audited)]);
            && |t.ran| == |t.passed| == |r.graph.goals|
            && forall i :: 0 <= i < |t.ran| ==> t.ran[i] == t.passed[i] == t.files
  {
    var before := RunAll(r, events);
    var p := RunKeepsSound(r, events);
    AlwaysTracked(r, events);
    LastEvent(r, events, VerificationPassed(audited));
    OpRefinesMove(r.graph, p, Op.Verify);
    if p.phase == Claimed {
      CoveredAtClaim(before, r.graph, p, p.k);
      PassesEverything(before, r.graph, p, audited);
    } else {
      NothingToVerify(before, r.graph, p);
    }
  }

  // ------------------------------------------------- the property does fail

  /** Where a goal of a sound run stands after an event of the plain life cycle. */
  lemma Moves(r: Run, start: GoalGraph, p: Position, e: Event) returns (q: Position)
    requires Sound(r, start, p)
    requires e == Begin || e == ClaimGoal || e.VerificationFailed? || (e.VerificationPassed? && p.phase == Claimed)
    ensures Sound(Next(r, e), start, q)
    ensures q == match e
                 case Begin => if p.phase == Pending && p.k < |start.goals| then Position(p.k, Active) else p
                 case ClaimGoal => if p.phase == Active then Position(p.k, Claimed) else p
                 case VerificationFailed(_) => if p.phase == Claimed then Position(p.k, Active) else p
                 case _ => Position(p.k + 1, Pending)
    ensures e == Begin && q != p ==> CanBegin(r)
  {
    match e {
      case Begin =>
        OpRefinesMove(start, p, Activate);
        q := if p.phase == Pending && p.k < |start.goals| then Position(p.k, Active) else p;
      case ClaimGoal =>
        OpRefinesMove(start, p, Claim);
        q := Move(|start.goals|, p, Claim);
      case VerificationFailed(_) =>
        OpRefinesMove(start, p, Retry);
        q := Move(|start.goals|, p, Retry);
      case VerificationPassed(audited) =>
        VerificationKeepsSound(r, start, p, audited);
        q := Position(p.k + 1, Pending);
    }
  }

  const PATH := "app/page.tsx"

  /** Goal 0 is verified and last ran on the checkpoint, which is also what is in the workspace. */
  ghost predicate FirstVerified(r: Run, start: GoalGraph, good: Files) {
    && Sound(r, start, Position(1, Pending)) && |start.goals| >= 3
    && r.files == good && r.checkpoint == Some(good) && !r.unknown && PATH in r.changed[0] && |r.ran| == 1
  }

  lemma VerifyFirst(r: Run, good: Files) returns (events: seq<Event>)
    requires InitialRun(r) && |r.graph.goals| >= 3 && !SameAt(r.files, good, PATH)
    ensures FirstVerified(RunAll(r, events), r.graph, good)
  {
    InitialIsCanonical(r.graph);
    var r1 := Next(r, Begin);
    var p := Moves(r, r.graph, Position(0, Pending), Begin);
    var r2 := Next(r1, Edit(good));
    p := Moves(r2, r.graph, p, ClaimGoal);
    var r3 := Next(r2, ClaimGoal);
    p := Moves(r3, r.graph, p, VerificationPassed({}));
    CoveredAtClaim(r3, r.graph, Position(0, Claimed), 0);
    events := [];
    LastEvent(r, events, Begin);
    events := events + [Begin];
    LastEvent(r, events, Edit(good));
    events := events + [Edit(good)];
    LastEvent(r, events, ClaimGoal);
    events := events + [ClaimGoal];
    LastEvent(r, events, VerificationPassed({}));
    events := events + [VerificationPassed({})];
  }

  /** Goal 1 has broken goal 0's file, which the forced full suite found. */
  ghost predicate SecondFailed(r: Run, start: GoalGraph, good: Files, bad: Files) {
    && Sound(r, start, Position(1, Active)) && |start.goals| >= 3
    && r.start == good && !r.unknown && PATH in r.changed[0] && |r.ran| == 1 && r.ran[0] == bad
  }

  /** Goal 1 is claimed with goal 0's file broken. */
  ghost predicate SecondClaimed(r: Run, start: GoalGraph, good: Files, bad: Files) {
    && Sound(r, start, Position(1, Claimed)) && |start.goals| >= 3
    && r.start == good && r.files == bad && !r.unknown && PATH in r.changed[0] && |r.ran| == 1
  }

  lemma ClaimSecond(r: Run, start: GoalGraph, good: Files, bad: Files) returns (t: Run)
    requires FirstVerified(r, start, good)
    ensures t == Next(Next(Next(r, Begin), Edit(bad)), ClaimGoal)
    ensures SecondClaimed(t, start, good, bad)
  {
    var p := Moves(r, start, Position(1, Pending), Begin);
    var edited := Next(Next(r, Begin), Edit(bad));
    p := Moves(edited, start, p, ClaimGoal);
    t := Next(edited, ClaimGoal);
  }

  lemma FailSecond(r: Run, start: GoalGraph, good: Files, bad: Files) returns (t: Run)
    requires SecondClaimed(r, start, good, bad) && !SameAt(good, bad, PATH)
    ensures t == Next(r, VerificationFailed(true))
    ensures SecondFailed(t, start, good, bad)
  {
    InUnion(r.changed, 0, PATH);
    assert PATH in Delta(r.start, r.files) * Union(r.changed);
    CoveredAtClaim(r, start, Position(1, Claimed), 0);
    var p := Moves(r, start, Position(1, Claimed), VerificationFailed(true));
    t := Next(r, VerificationFailed(true));
  }

  /** With nothing changed since the goal's boundary, the suite is focused and leaves goal 0 out. */
  lemma UnchangedIsFocused(r: Run, start: GoalGraph)
    requires Sound(r, start, Position(1, Claimed)) && |start.goals| >= 3 && !r.unknown && r.start == r.files
    ensures BuildRegressionSuite(r.graph, FullReason(r)).Ok? && !Covers(r, 0)
  {
    assert Delta(r.files, r.files) == {};
    assert FullReason(r) == None;
    SuiteAtClaim(start, 1, None);
    SameGoalIds(start, 1, Claimed, 0);
    assert start.goals[0].id != start.goals[1].id;
  }

  lemma PassSecondReverted(r: Run, start: GoalGraph, good: Files, bad: Files) returns (t: Run)
    requires SecondFailed(r, start, good, bad)
    ensures t == Next(Next(Next(r, Edit(good)), ClaimGoal), VerificationPassed({}))
    ensures |t.ran| == |t.passed| == |t.changed| == 2 && t.ran[0] == bad && t.files == good && PATH in t.changed[0]
  {
    var edited := Next(r, Edit(good));
    var p := Moves(edited, start, Position(1, Active), ClaimGoal);
    var claimed := Next(edited, ClaimGoal);
    UnchangedIsFocused(claimed, start);
    t := Next(claimed, VerificationPassed({}));
  }

  /**
   In any graph of three goals or more: goal 0 passes, goal 1 breaks its file, the forced full suite fails, the file is
   restored, and goal 1 passes a focused suite. Goal 0's acceptance last ran on the broken file.
   */
  lemma LastRunMayBeStale(r: Run, good: Files, bad: Files) returns (events: seq<Event>)
    requires InitialRun(r) && |r.graph.goals| >= 3
    requires !SameAt(r.files, good, PATH) && !SameAt(good, bad, PATH)
    ensures var t := RunAll(r, events + [VerificationPassed({})]);
            && |t.ran| == |t.passed| == |t.changed| == 2
            && PATH in t.changed[0] && t.ran[0] == bad && t.files == good && !SameAt(t.ran[0], t.files, PATH)
  {
    events := VerifyFirst(r, good);
    var claimed := ClaimSecond(RunAll(r, events), r.graph, good, bad);
    var failed := FailSecond(claimed, r.graph, good, bad);
    LastEvent(r, events, Begin);
    events := events + [Begin];
    LastEvent(r, events, Edit(bad));
    events := events + [Edit(bad)];
    LastEvent(r, events, ClaimGoal);
    events := events + [ClaimGoal];
    LastEvent(r, events, VerificationFailed(true));
    events := events + [VerificationFailed(true)];
    var passed := PassSecondReverted(failed, r.graph, good, bad);
    LastEvent(r, events, Edit(good));
    events := events + [Edit(good)];
    LastEvent(r, events, ClaimGoal);
    events := events + [ClaimGoal];
    LastEvent(r, events, VerificationPassed({}));
  }
}
